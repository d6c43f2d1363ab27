# round_robin: a verified model

round_robin carries one TCP stream over N tunnels. The splitter cuts the client's bytes into
numbered frames and spreads them over the tunnel links; the reassembler puts them back in order
in front of the target; responses travel the same way in the other direction. There is no
retransmission, so a lost frame must end in a reset and never in a silent gap.

This project models that protocol and proves what it promises, over every run, every interleaving
and every input. `dafny verify dfyconfig.toml` checks all of it.

| file | what it is about |
|---|---|
| `Wire.dfy`, `MapSums.dfy`, `Division.dfy` | constants and frames; sums over maps; quotients |
| `Reorder.dfy`, `Receiver.dfy` | the reorder window; a received frame up to the bounded channel |
| `Sender.dfy`, `Delivery.dfy`, `Skew.dfy` | the sending loops; one direction end to end; how much skew a window bears |
| `HalfClose.dfy` | the half-close atomics, the force timer and the egress writer |
| `Reassembler.dfy` | the reassembler's maps and handlers as a transition relation |
| `Handlers.dfy` | what each event does, read off the tables |
| `PendingBudget.dfy`, `Lifecycle.dfy`, `Closing.dfy`, `NoSilentLoss.dfy`, `Provenance.dfy` | what every run of it keeps |
| `PendingTable.dfy`, `EgressTable.dfy`, `ClientTable.dfy` | the handlers as classes that update their tables in place, each method proved equal to its transition |
| `Traffic.dfy`, `Exchange.dfy`, `Answers.dfy` | both sides joined by links; what each side answers |
| `ReassemblerCost.dfy`, `Termination.dfy` | the exchange runs dry |
| `WeightedPick.dfy`, `TunnelPool.dfy`, `DrainTask.dfy` | the scheduler, the pool's sends, a link's writer task |
| `Codec.dfy`, `Calendar.dfy` | the frame codec; day number to date |

How the model is cut:

- Each frame handler is one step, except a SYN, which is two: the egress connect in its middle is
  where other frames get in. `close_write_half`, `start_half_close` and the force timer are
  modelled one atomic operation at a time.
- Timers and sweeps are steps that may happen whenever the code allows them. Explicit time is kept
  only where an order matters: tombstones live 60 s and a connect ends within 10 s.
- Whether a bounded channel takes a chunk, whether a link has room, and what a read returns are
  arbitrary at each moment.
- u64 numbering wraps as in the code. Theorems about whole streams assume that a number stays
  below 2^64 - 1; `Reorder.WrapForgetsProgress` shows what the wrap would do.

What the model found:

- `start_half_close` and the splitter's FIN branch publish `fin_received` before `fin_seq`. In
  that gap a closer reads 0 and closes the egress early: `HalfClose.TornFinTruncates` reaches a
  cut-off stream without a force, a cancel or a failed write. `HalfClose.LoadTruncatesIff` gives
  the exact condition: a load can cut the stream if and only if the number is not stored yet and
  the window is still incomplete at that moment.
- After a refused `try_send` the splitter's `on_frame` keeps offering the chunks behind it, so the
  client can see a gap next to the reset. `Receiver.SplitterKeepsPrefixIff` says exactly when.
- The reassembler drops the reorder lock before it removes the connection it resets, so a handler
  that already holds the connection can still push the next chunk past the refused one:
  `Delivery.LateHandlerGaps`. Up to the first reset the output is exactly the beginning of the
  stream on both sides. `Delivery.DeliveryBreaksIff` names the deliveries that can break it: exactly
  those of the next expected frame that are handled after a refused chunk, or, on the splitter, with
  the chunk behind it already waiting.
- The repository's README asks for a reorder budget of tunnels x 128 x chunk size. No such product
  bounds the skew, because a stalled link does not hold back the others:
  `Skew.StalledLinkOverflowsAnyWindow` overflows any budget, with chunks of any size, over two links
  with one queued frame each. `Skew.SafeSkewIff` states the exact bound on an explicit skew instead.
- A link that was never measured weighs the total over all live links divided by their number, not
  the mean of the measured ones as the comment in `tunnel.rs` says; `WeightedPick.WeightIs` states
  what the code does.
- The frame whose tunnel write fails is not among a link's lost frames, and neither is a frame that
  a sender queues while a dying link shuts its socket down, so nothing resets their connections; the
  drain theorem accounts for both separately.

## Model

| member | source | states |
|---|---|---|
| `Reorder.ReorderBuf.Push` | src/reorder.rs:64-122 | the in-place push with its drain loop gives exactly the next window and result, and the running byte counter stays exact |
| `Reorder.RefinesReceivedSet` | src/reorder.rs:64-122 | after any trace without overflow: `expected` is the least number not received, the pending map is exactly what was received above it with the payload that came first, and the output is the received chunks in order |
| `Reorder.ArrivalOrderIrrelevant` | src/reorder.rs:64-122 | two traces with the same arrivals, in any order and with any repeats, deliver the same chunks and leave the same window |
| `Reorder.CompleteIffAllArrived` | src/reorder.rs:132-134 | after any trace without overflow the buffer is complete through s if and only if every number below s has arrived |
| `Reorder.BoundedSkewNeverOverflows` | src/reorder.rs:94-112 | if each frame is at most c bytes and at most `skew` ahead, and `skew` frames fit both caps, no push of the run overflows |
| `Skew.SafeSkewIff` | src/reorder.rs:94-112 | the bound is exact: no run of frames of at most c bytes at most `skew` ahead overflows if and only if `skew` frames of c bytes fit both the entry cap and the byte budget |
| `Reorder.EntryCapNeverBindsFirst` | src/reorder.rs:48-56 | with full-size frames a frame fits if and only if the byte budget has room for it |
| `Reorder.WrapForgetsProgress` | src/reorder.rs:76 | taking in number 2^64 - 1 sets `expected` back to 0 and completeness is forgotten |
| `Receiver.Conn.OnFrame` | src/splitter.rs:105-126 | push and channel writes in one lock give the received window, the accepted chunks and the reset verdict of either side |
| `Receiver.OfferIsPrefix` | src/reassembler.rs:1079-1094 | an offer without a refusal hands over everything; the reassembler's always hands over a prefix |
| `Receiver.OfferFailsIff` | src/reassembler.rs:1082-1094 | an offer fails if and only if the channel refuses one of the chunks, on either side |
| `Receiver.OfferFates` | src/splitter.rs:116-121 | an offer hands over exactly the chunks the channel took, in order, and reports a failure if and only if it refused one, on either side |
| `Receiver.ReassemblerTakes` | src/reassembler.rs:1082-1094 | the reassembler hands over a ready chunk if and only if the channel accepts it and all before it |
| `Receiver.SplitterKeepsPrefixIff` | src/splitter.rs:116-121 | for all chunks, equal ones included: what the channel got is, by position, the first few of the ready chunks if and only if it accepts nothing after a refusal, and then it is a prefix of them |
| `Receiver.SplitterGapExample` | src/splitter.rs:116-121 | a full channel that drains between two offers delivers chunk 2 without chunk 1, while `expected` moves past both |
| `Sender.ClientLoop` | src/splitter.rs:825-903 | one DATA frame for each chunk read and taken, numbered from 1, and then: an RST and no FIN if a chunk was lost or no link took the FIN, nothing after a reset, and otherwise the FIN with the next number |
| `Sender.EgressReader` | src/reassembler.rs:1533-1644 | the same for the egress reader; cut short or cancelled it sends nothing more, and it removes the connection itself exactly when a chunk could not be sent |
| `Sender.FinMeansWholeStream` | src/splitter.rs:885-903 | a FIN is sent only when every chunk read was sent, and it carries the next number; a stream that lost a chunk gets none |
| `Sender.ChunksAreRead` | src/splitter.rs:829-859 | the chunks of a run of turns are those of its parts in order, so none that was read is left out of the account |
| `Sender.LoopIsSender` | src/splitter.rs:825-895 | frame by frame and for any choice of links, the loop's output is a run of the delivery protocol's sender |
| `Delivery.PrefixDelivery` | src/reassembler.rs:1054-1098 | in every run, over any number of FIFO links, any interleaving and any link deaths, until the first reset the receiver has handed over exactly chunks 1..expected-1; at every moment, late handlers after a reset included, exactly those of them its channel took |
| `Delivery.DeliveryBreaksIff` | src/reassembler.rs:1059-1094 | in every run whose output is so far the beginning of the stream, the next delivery from a link can leave one that is not if and only if its frame is the next one expected, is handled (no reset yet, or by a handler that outlives it), and a chunk was refused before, or this is the splitter with the chunk behind it waiting |
| `Delivery.FirstResetKeepsPrefix` | src/reassembler.rs:1079-1094 | the step that brings the reassembler's first reset still leaves a prefix of the stream |
| `Delivery.LateHandlerGaps` | src/reassembler.rs:1082-1094 | a run in which a handler that outlives the reset hands the target chunk 2 without chunk 1 |
| `Delivery.CompleteDelivery` | src/splitter.rs:885-895 | in every run, once the sender is done and the links are empty, with no death and no reset, the output is the whole stream, the window is empty and `expected` is the FIN's number |
| `Skew.StalledLinkOverflowsAnyWindow` | src/tunnel.rs:241-244 | for every budget and every chunk size there is a run with two links, one frame queued on each at most and nothing lost, that ends in a reset with nothing delivered, the window holding as many chunks as its tighter cap allows |
| `HalfClose.ClosedForever` | src/reassembler.rs:1420-1456 | state 2 is absorbing under every interleaving of atomic operations, and the window's progress only grows |
| `HalfClose.OneEvaluatorAndForceWins` | src/reassembler.rs:1420-1456 | at any moment at most one normal closer is evaluating, and a force is never undone by a rollback |
| `HalfClose.NormalCloseIsComplete` | src/reassembler.rs:1433-1451 | a close by the normal path happens only with the window complete through the number that closer read, and that stays so for ever |
| `HalfClose.ExactEof` | src/reassembler.rs:1468-1514 | in runs where each closer loads `fin_seq` after it is stored or with the window complete: unless forced, cancelled or failed, the writer shuts down only after writing every chunk of the stream |
| `HalfClose.LoadTruncatesIff` | src/reassembler.rs:1399-1451 | in every unspoiled state reached without a harmful load, a closer about to load `fin_seq` can bring about a truncated stream if and only if the number is not stored yet and the window is incomplete |
| `HalfClose.ExactEofWithAtomicFin` | src/reassembler.rs:1398-1456 | the same for every run that publishes the FIN's flag and number together |
| `HalfClose.TornFinTruncates` | src/reassembler.rs:1399-1402 | a reachable state where the writer shut down after one of two chunks with no force, cancel or failed write, through a closer between the two stores |
| `Closing.WriteHalfClosesExactly` | src/reassembler.rs:1398-1456 | in every run an established connection's write half is closed once every chunk below its FIN's number is in, and only then or by the force timer; once the egress has ended too, the connection is gone |
| `HalfClose.NothingStuck` | src/reassembler.rs:1420-1456 | in every run the closing state has a closer at work on it, a closed write half has a wakeup for the writer owed, pending or taken, and the force timer closes whatever it finds |
| `HalfClose.LoneCloserDecides` | src/reassembler.rs:1420-1456 | an undisturbed closer closes and wakes the writer if and only if the window is complete through the stored number, and otherwise leaves the write half open |
| `HalfClose.CompleteStreamCanEnd` | src/reassembler.rs:1398-1514 | from any unspoiled state with the number stored, the window complete, the write half open and a closer to come, the writer can shut down after every chunk |
| `PendingBudget.BudgetAlwaysExact` | src/reassembler.rs:1122-1180 | in every reachable state the byte counter is the sum over the queued entries, each entry's count is the size of its DATA, and the total is within 64 MB |
| `PendingBudget.ReservationSucceeds` | src/reassembler.rs:1320-1370 | from any state with exact accounting the reservation finds room for a frame, whatever one entry is exempt |
| `PendingBudget.ReservationTerminates` | src/reassembler.rs:1320-1370 | the eviction loop always reaches an end |
| `PendingBudget.EvictionOldestFirst` | src/reassembler.rs:1338-1347 | entries leave in order of age, each once, none staying is older than one that left, and the exempt one stays |
| `PendingBudget.EvictionStopsWhenFits` | src/reassembler.rs:1326-1335 | every entry that leaves, leaves while the frame did not fit |
| `PendingBudget.EvictionEffect` | src/reassembler.rs:1348-1366 | evicting a run removes exactly those entries, tombstones and resets exactly those identifiers in order, and touches nothing else |
| `PendingTable.Table.TryReserve` | src/reassembler.rs:1320-1370 | the in-place loop evicts exactly such a run and reserves the bytes, or reports that nothing more may go |
| `PendingTable.Table.QueueData` | src/reassembler.rs:1111-1180 | DATA for an unknown identifier, in place, is exactly the model's DATA step, through every cap and failure branch |
| `PendingTable.Table.QueueFin` | src/reassembler.rs:1204-1226 | a FIN ahead of its SYN, in place, is exactly the model's FIN step |
| `PendingTable.Table.SweepStale` | src/reassembler.rs:1275-1300 | exactly the entries past their time to live go, each evicted once |
| `PendingTable.ReplayInto` | src/reassembler.rs:953-1029 | the SYN drain loop pushes the queued frames in order up to the first failure and remembers the last FIN |
| `Lifecycle.NoGhostEgress` | src/reassembler.rs:622-654 | in every run the established identifiers are apart from the tombstoned, queued and handshaking ones; whatever leaves is tombstoned in that step; only an untombstoned handshake becomes established |
| `Lifecycle.ResetDuringConnectWins` | src/reassembler.rs:880-897 | a tombstone set by RST, eviction or sweep while a connect is in flight is still there when the connect ends, which then establishes nothing |
| `Lifecycle.NoSilentEnd` | src/reassembler.rs:1650-1680 | in every run a connection leaves only in a step that receives or sends a reset for it, or once its FIN is in, its egress has ended and its write half is closed or closable |
| `Handlers.RstLaw` | src/reassembler.rs:1231-1256 | an RST tombstones its identifier in any state and sends nothing; an established connection goes, a queued entry is cancelled, its handshake woken |
| `Handlers.RstBeatsConnect` | src/reassembler.rs:1243-1254 | an RST that arrives during an egress connect keeps that connect from establishing the connection |
| `Handlers.LostQueueFailsFast` | src/reassembler.rs:1275-1370 | in every run a queue that is evicted or swept goes with a tombstone, a reset to the splitter and a wakeup for its handshake |
| `Handlers.QueuedIffCapsAllow` | src/reassembler.rs:1118-1226 | a DATA or FIN frame ahead of its SYN is queued, last, if and only if the caps on entries and on frames allow it; otherwise its connection fails fast; no other queue goes while the bytes fit |
| `Handlers.LateFrameLaw` | src/reassembler.rs:1112-1117 | late DATA for a tombstoned identifier is answered with a reset and a late FIN with nothing; no table changes |
| `Handlers.SynLaw` | src/reassembler.rs:619-704 | a SYN starts a handshake if and only if its identifier is neither established, handshaking nor tombstoned and its target is valid; an invalid one is reset, a second one ignored |
| `Handlers.ConnectLostLaw` | src/reassembler.rs:841-877 | a failed connect tombstones and resets, a cancelled one only tombstones; queue and handshake are over |
| `Handlers.ConnectedLaw` | src/reassembler.rs:880-1029 | a successful connect establishes the connection if and only if it was neither tombstoned nor cancelled and no queued frame breaks it, with every queued frame absorbed and the last queued FIN in effect; a broken queue resets it |
| `Handlers.ReplayFailsIff` | src/reassembler.rs:966-1010 | a replay fails if and only if some queued frame overflows the window or makes a chunk ready that the egress channel refuses |
| `Handlers.EstablishedDataLaw` | src/reassembler.rs:1054-1107 | DATA resets an established connection, with one RST and a tombstone, if and only if it overflows or a chunk it makes ready is refused; otherwise exactly those chunks follow on its stream |
| `Handlers.EgressLaw` | src/reassembler.rs:1605-1644 | the egress end is passed on as a FIN, or as a reset if no link took it; a failed response and an idle connection end in a reset |
| `Handlers.TombstoneLives` | src/reassembler.rs:290 | in every run a tombstone stands for at least 60 s after it was last set |
| `Handlers.QueueLives` | src/reassembler.rs:1275-1300 | the stale sweep takes only a queue that has waited at least 30 s, with a tombstone, a reset and a wakeup |
| `NoSilentLoss.NothingLostSilently` | src/reassembler.rs:1036-1228 | in every run each DATA or FIN frame handled is held in every later state, or up to the very step that hands it to egress at its own place, finds it a duplicate, takes its number for the half-close, finds another FIN in effect, or drops it with its identifier tombstoned |
| `NoSilentLoss.ReplayTakesAll` | src/reassembler.rs:953-1029 | a SYN drain that does not fail takes in every queued DATA frame and a queued FIN |
| `Provenance.NothingInvented` | src/reassembler.rs:1036-1098 | in every run the k-th egress chunk of a connection is the payload of a DATA frame numbered k that arrived for it, and the half-close waits for the number of a FIN that arrived for it |
| `Provenance.EgressIsPrefix` | src/reassembler.rs:953-1098 | if the DATA frames for an identifier carry a stream, its egress output is a prefix of that stream in every run, whatever was queued ahead of its SYN |
| `Provenance.EgressIsComplete` | src/reassembler.rs:953-1098 | if all of that stream has arrived, in any order around the connect, an established identifier that was never tombstoned has handed over all of it; with an agreed FIN the half-close has its number and the window is complete through it |
| `EgressTable.Connections.HandleData` | src/reassembler.rs:1054-1107 | DATA for an established connection, in place on its own objects, is exactly the model's step, and no other connection changes |
| `EgressTable.Connections.HandleFin` | src/reassembler.rs:1185-1196 | the same for a FIN: half-close, then removal when both directions are done |
| `EgressTable.Connections.Handle` | src/reassembler.rs:1036-1240 | any frame for an established connection, in place on its own objects, is exactly the model's step for it |
| `EgressTable.VirtConn.CloseWriteHalf` | src/reassembler.rs:1420-1456 | run without interference, the close goes to state 2 exactly from state 0 with every chunk below the number in, and otherwise leaves the state alone |
| `ClientTable.Clients.HandleInbound` | src/splitter.rs:558-639 | in place: an RST goes out, with the client out of the table and in TIME_WAIT, exactly for DATA that overflows or is refused, for DATA of an unknown identifier and for an RST; a FIN is recorded with its number; all else as the exchange model says |
| `Answers.SplitterAnswers` | src/splitter.rs:558-661 | in every run the frame at the head of a link gets exactly the answer its table and channel call for: stream extended, client reset with one RST, RST for the unknown, FIN recorded; no other client changes |
| `Answers.ClientsSeeNoGap` | src/splitter.rs:105-126 | in every run of both sides each client in the table has been handed one chunk for each number below `expected` |
| `Answers.ClientStepLaw` | src/splitter.rs:788-903 | a client is in the table, with a read loop, if and only if a link took its SYN; its chunks, its FIN or RST, a sweep's RST and a target's chunks go on the links as sent |
| `Answers.LinkDeathLaw` | src/tunnel.rs:410-421 | when a link dies each of its frames stays on the wire, is the one whose write failed, or is reported lost in order |
| `Answers.RecoveryLaw` | src/splitter.rs:226-240 | a lost control frame is sent again; lost DATA resets its client, or is answered with a reset when the reassembler lost it |
| `Answers.ReassemblerAnswers` | src/reassembler.rs:616-1256 | with live links, the resets a handler decided on are all on their way to the splitter, and nothing else |
| `Answers.ReassemblerActs` | src/reassembler.rs:1605-1644 | the same for what the reassembler does by itself, with the FIN of an ended egress stream |
| `Answers.ResetsAreRsts` | src/reassembler.rs:1306-1315 | each reset decided on is one RST frame for that identifier, as many as were decided on |
| `ReassemblerCost.StepCost` | src/reassembler.rs:1231-1256 | each step of the reassembler pays for the resets it sends out of what it takes in or gives up |
| `Termination.ExchangeTerminates` | src/splitter.rs:587-661 | from any state, with finite input and no new links, the frames sent and the steps taken in any run are bounded by that state's potential: resets never ping-pong |
| `Termination.EventuallyQuiet` | src/reassembler.rs:488-495 | every unending run falls silent: from some step on only clocks, tombstone expiry and the force timer move |
| `WeightedPick.PickSpans` | src/tunnel.rs:327-337 | the anchor falls into the picked link's own stretch of the cumulative weights, so the rounding fallback is unreachable |
| `WeightedPick.PicksWithinOneOfShare` | src/tunnel.rs:296-337 | any 1024 consecutive cursors pick each link within one of 1024 w / total |
| `WeightedPick.PicksAddUp` | src/tunnel.rs:296-337 | each cursor picks exactly one link |
| `WeightedPick.WeightIs` | src/tunnel.rs:307-325 | once anything is measured, a link weighs its own rate, raised to the floor share; an unmeasured one weighs the larger of mean and floor |
| `WeightedPick.ColdStartUniform` | src/tunnel.rs:307-325 | with nothing measured all links weigh the same |
| `WeightedPick.MeasuredShare` | src/tunnel.rs:296-337 | a link measured at or above the floor gets picks in proportion to its rate, within one of 1024 consecutive picks |
| `WeightedPick.RatesDecide` | src/tunnel.rs:296-337 | the picks of two such links stand to each other as their rates, each within one |
| `WeightedPick.FloorShare` | src/tunnel.rs:307-325 | a link's weight is at least 0.05 / (2 + 0.05 n) of the total, whatever the measured rates |
| `WeightedPick.NoLinkStarves` | src/tunnel.rs:36-38 | each of n links gets more than 51.2 / (2 + 0.05 n) - 1 of 1024 picks, at least 9 for n up to 64 |
| `TunnelPool.Pool.Send` | src/tunnel.rs:189-212 | success if and only if some live open link has room; the frame goes once onto the first such link from the cursor, other queues stay, and only closed links are marked dead |
| `TunnelPool.Pool.SendPass` | src/tunnel.rs:224-285 | the same for one pass of the DATA send, within as many picks as there are live links; the link that takes the frame is the proportional pick among the live links not found full |
| `TunnelPool.Pool.WeightedPick` | src/tunnel.rs:296-337 | the accumulation loop picks the link the proportional rule names, and finds one if and only if a live link is left |
| `DrainTask.Drain.Run` | src/tunnel.rs:352-427 | however the writer ends, the frames queued through its final sweep are the written ones, then at most one whose write failed, then the lost ones, in order; everything ever queued is among them if and only if nothing is queued after the sweep |
| `DrainTask.Drain.Take` | src/tunnel.rs:366-416 | the frame at the head of the channel is on the wire if and only if it could be encoded and its write succeeded; an oversized or stopped one is reported lost, and a failed write ends the writer |
| `Codec.EncodeInto` | src/frame.rs:99-113 | appends the encoding, or refuses and leaves the buffer alone, exactly by the payload limit |
| `Codec.WireLayout` | src/frame.rs:99-113 | connection, number, flags, length and payload at their offsets, integers in network byte order |
| `Codec.FrameDecoder.TryNext` | src/frame.rs:185-229 | for any read boundaries the outcome and the remaining bytes are those of the byte stream alone, and the overflow bail is never taken |
| `Codec.RoundTrip` | src/frame.rs:185-229 | every list of encodable frames, under every split of its encoding into reads, is decoded to that list and then a clean end |
| `Codec.TruncatedStreamErrs` | src/frame.rs:210-222 | a stream cut inside a frame yields the complete frames and then an error |
| `Codec.ReencodeAll` | src/frame.rs:185-229 | re-encoding what any byte stream decodes to gives that stream back up to its incomplete tail |
| `Calendar.CivilCorrect` | src/logging.rs:110-122 | day 0 is 1970-01-01, every day number gives a valid date, and the next day number gives its proleptic Gregorian successor; no subtraction underflows |
| `Calendar.DayOrderIsDateOrder` | src/logging.rs:110-122 | dates are ordered as their day numbers, for all integers |
| `Calendar.TextOrderIsDayOrder` | src/logging.rs:157-160 | for years 0 to 9999 the byte order of the file-name dates (full-date of section 5.6 of RFC 3339) is day order, which the purge relies on |
| `Calendar.FormatLaw` | src/logging.rs:110-122 | the text of a date is YYYY-MM-DD in decimal digits whose values are its year, month and day |

## Left out

- HalfClose.ExactEof: excludes exactly the loads that `HalfClose.LoadTruncatesIff` shows to be harmful, because the property is false with them
- Delivery.PrefixDelivery: promises a prefix only until the first reported reset, because it is false afterwards on both sides; `Delivery.DeliveryBreaksIff` has the exact condition
- NoSilentLoss.NothingLostSilently: accounts for frames the reassembler handled, not for a frame lost with its link or in a failed tunnel write
- EgressTable.VirtConn.CloseWriteHalf: is the uninterrupted sequence; the races on the same atomic are in `HalfClose`
- PendingTable.Table.TryReserve: merges the compare-and-swap with its load, so two reservations never interleave inside the loop
- Races inside one handler (an eviction between a tombstone check and an insert, a handler that vanishes between two map lookups, the recursion in DATA handling that answers such a vanish) are below the model's step; the one exception is the handler that outlives a reset, in `Delivery`
- UDP relays: no order and no half-close; every map theorem is about TCP identifiers
- The SYN target codec and address text, SOCKS5, DNS, sockets and tunnel setup: library plumbing
- The handshaking table's 120 s sweep and the timestamp a duplicate SYN refreshes: a connect is over long before
- The grace wait after the client's end of stream and `fin_sweep_decision`: both only choose when a connection is removed; removal and sweep are free steps in the exchange
- Bounds on a tunnel's frame queue in the delivery and exchange models: links there take any number of frames or refuse at will
- The floating-point EWMA of drain rates: rates are arbitrary non-negative reals, and weights are exact
- A frame with several flag bits is handled by the first of SYN, DATA, FIN, RST, and one with none is ignored; the models carry the kind, not the bits
- Statistics, configuration, log files, the purge's file loop, the heartbeat's statistics lines and the install script
- docs/MULTIPATH_DESIGN.md: an earlier design with acknowledgements that the code does not implement
