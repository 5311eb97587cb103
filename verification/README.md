# QUICshot, verified

A Dafny 4.11 model of the stateful and concurrent parts of QUICshot: the edge's connector registry and
its control protocol, one request's path through the tunnel with its competing deadlines, the load
generator's workers, recorder, pacer and latency ring, and the UI's event hub, rate limiter, flow
counters, run slot and kernel-counter readers. `dafny verify dfyconfig.toml` checks everything.

How to read it:

- Code that updates an object in place is a `class` whose methods are proved equal to a function of the
  old state; the same functions are the steps of a transition system, and the results are about every
  run of it. A run is a sequence of atomic steps (one atomic operation or one mutex section each), so a
  statement about every valid run is a statement about every interleaving. `Exec` folds a run.
- Time is a `nat` number of nanoseconds. Percentages are exact `real`s. `map[K]int` histograms are maps
  with a proved sum (`Histogram`).
- Specifications are stated over the run itself where that reads well (for example "the last of register,
  unregister and end of stream is a register"). Elsewhere they speak of the state, and then the state
  carries what the program itself does not keep: arrival and cancel times in `RequestPath`, attempts and
  unbuildable requests in `Recorder`, granted slots in `OpenLoop`.

| file | content |
|---|---|
| `Registry.dfy`, `RoundRobin.dfy` | the connector slice refines the fold of each connection's history; live picks; staleness; ticket fairness |
| `ControlProto.dfy`, `JsonText.dfy`, `Tunnel.dfy` | JSON-line control messages round-trip; exactly which lines are accepted; what a session does to the registry |
| `RequestPath.dfy` | who reports a failure: 524, 1014, 1033 or nobody; where each reply comes from; releasing the origin |
| `Recorder.dfy`, `ClosedLoop.dfy`, `OpenLoop.dfy` | conservation of requests under every interleaving; the overshoot bound; open-loop offers, their rate and what is omitted |
| `Traces.dfy`, `Ledger.dfy`, `Progress.dfy` | the recorder under both loops: every count is the number of replies of its own kind; what the progress line can show |
| `Pacer.dfy`, `LatencyHist.dfy`, `Percentile.dfy` | closed form of the granted slots; exact ring contents; both percentile readings |
| `Hub.dfy`, `RateLimiter.dfy`, `Flow.dfy`, `RunSlot.dfy`, `Snmp.dfy` | the UI side |
| `Basics.dfy`, `Histogram.dfy`, `Division.dfy` | options and the 64-bit word; counting over finite maps; division by a variable |

What the proofs found in the code:

- A client that cancels after the edge's `clientGone` check and before the report is blamed all the same:
  a 524 or 1014 is written and logged after its cancel. `BlameAfterCancelIff` says exactly when,
  `CancelledYetReported` gives the run.
- The progress line loads `requests` and then `failures`, so it can show more failures than requests, with
  no reset anywhere (`ShownIff`: any two numbers that the counter of requests can reach), and from inside a
  reset, which zeroes `requests` first (`WindowReading`). `ReadingIff` says exactly when. In a snapshot of
  both counters only the reset does it (`SnapshotFailuresIff`).
- The latency ring indexes with the already incremented `seen`, so between one and two full rounds it
  still holds the very first sample and not the last N that the summary line announces (`LastNOfMIff`).
- Round-robin is fair over every window that crosses the 64-bit wrap only if the number of choices
  divides 2^64 (`FairAcrossWrapIff`).
- The two SNMP readers treat a malformed number differently: one skips it, the other takes 0, or the
  maximum when it does not fit 64 bits. They differ on numbers that do not fit, and on a repeated column
  whose last value is malformed (`ReadersAgreeIff`, `ReadersDiffer`).
- The run slot publishes its status outside the lock, so the UI can show "idle" while a run is going on,
  until the run ends or another browser connects (`IdleShownWhileRunning`). A connecting browser publishes
  to everyone what it saw earlier, so the UI can also show "running" with nothing running, until another
  browser connects or a run starts (`BusyShownAtRest`). The display is exact throughout a run if and only
  if neither happens: no busy frame overtakes an idle frame that is due, and no browser's frame is out of
  date when it is published (`DisplayExactIff`).
- Of the edge's three 1033 answers only a failed stream open looks at whether the client has gone
  (`RefusedOutcome`).

## Model

| member | source | states |
|---|---|---|
| `Registry.Edge.DrawID` | internal/edge/edge.go:219 | ids are drawn in increasing order |
| `Registry.Edge.AddConnector` | internal/edge/edge.go:220-223 | appends an unregistered entry and counts the slice |
| `Registry.Edge.WatchLost` | internal/edge/edge.go:231-245 | cuts the connection's entry out of the slice in place and counts what is live afterwards |
| `Registry.Edge.UpdateConnector` | internal/edge/edge.go:279-288 | changes the entry with this id, or nothing when it is gone |
| `Registry.Edge.RegisteredLocked` | internal/edge/edge.go:297-307 | counts the live entries |
| `Registry.Edge.PickConnector` | internal/edge/edge.go:326-342 | picks from the live entries by hash or ticket, and reports none exactly when there are none |
| `Registry.Edge.PickConnectorIndex` | internal/edge/edge.go:360-370 | hash of a nonempty key modulo n, otherwise the next ticket modulo n |
| `Registry.LateControlIsNoOp` | internal/edge/edge.go:279-288 | a control message for a lost connector changes nothing |
| `Registry.LostRefines` | internal/edge/edge.go:234-240 | the in-place removal deletes exactly the lost connection's entry |
| `Registry.ControlRefines` | internal/edge/edge.go:253-277 | a control message reaches its own entry and no other |
| `Registry.ExecRefines` | internal/edge/edge.go:218-288 | under every interleaving of accepts, control messages, stream ends and losses the slice is the map from open connections to the fold of their control history, one entry each, ids strictly increasing |
| `Registry.EntryLive` | internal/edge/edge.go:316-324 | an entry is live exactly when its history says so; a registered one always has an arrival time |
| `Registry.PickedFromLive` | internal/edge/edge.go:291-342 | what is picked from, and counted as registered, is exactly the set of connectors live by their history, each once |
| `Registry.NoFalseStaleness` | internal/edge/edge.go:309-324 | while each register or ping is followed, in less than three keep-alive periods, by another, by the connector's own unregister, end of stream or loss, or by the horizon, a registered connected connector is live at every instant |
| `Registry.NoneOnlyWhenNoneRegistered` | internal/edge/edge.go:253-342 | if that holds of the registered connected connectors, Registered counts them all and a pick reports none only when there is none |
| `Registry.ConnectorsFair` | internal/edge/edge.go:326-342 | over any window of m round-robin picks with an unchanged set of n live connectors, each of them is picked floor(m/n) or ceil(m/n) times |
| `RoundRobin.VisitsClosedForm` | internal/edge/edge.go:369 | exactly how often each index comes up in a window of tickets |
| `RoundRobin.FairWithoutWrap` | internal/edge/edge.go:360-370 | any window of m draws chooses each of n indices floor(m/n) or ceil(m/n) times |
| `RoundRobin.FairAcrossWrapIff` | internal/edge/edge.go:369 | every window, wrapping ones included, is fair if and only if n divides 2^64 |
| `RoundRobin.DrawSeesChoice` | internal/edge/edge.go:369 | the k-th draw from the 64-bit counter is the ticket the fairness results count |
| `RoundRobin.ReqSpec.NextURL` | internal/blast/blast.go:92-101 | the URL of the next ticket; one URL or none does not draw |
| `RoundRobin.UrlsFair` | internal/blast/blast.go:92-101 | over m calls each of the n positions of the list is drawn floor(m/n) or ceil(m/n) times, so a URL listed c times comes up c times as often |
| `ControlProto.ControlStream.Write` | internal/tunnelproto/proto.go:33-40 | appends the encoded message and a newline |
| `ControlProto.ControlStream.Read` | internal/tunnelproto/proto.go:42-55 | consumes one line and decodes it; end of stream, malformed text and a missing type are errors |
| `ControlProto.MarshalRoundTrip` | internal/tunnelproto/proto.go:26-34 | every message survives its own encoding, omitted zero fields restored |
| `ControlProto.MarshalOneLine` | internal/tunnelproto/proto.go:33-38 | an encoded message never contains a raw newline |
| `ControlProto.FramingRoundTrip` | internal/tunnelproto/proto.go:33-55 | line framing carries any one-line encoding, in order, up to the end of the stream |
| `ControlProto.StreamRoundTrip` | internal/tunnelproto/proto.go:26-55 | any list of typed messages reads back exactly; an empty type is the only thing rejected |
| `ControlProto.MarshalText` | internal/tunnelproto/proto.go:26-40 | the encoded text: the type always, the other fields in order and under their JSON names unless empty or zero |
| `ControlProto.EscapeTable` | internal/tunnelproto/proto.go:33-34 | exactly which characters are escaped, and by which code |
| `ControlProto.IntDenotes` | internal/tunnelproto/proto.go:29-34 | an integer is written as its decimal digits, with a sign when negative and no leading zero |
| `ControlProto.UnknownKeyIgnored` | internal/tunnelproto/proto.go:47-48 | a member with an unknown key is skipped |
| `ControlProto.WrongTypeRejected` | internal/tunnelproto/proto.go:47-49 | a known key with a value of the wrong type, or a number out of range, makes the line malformed |
| `JsonText.UnmarshalIff` | internal/tunnelproto/proto.go:42-49 | a line reads as a message if and only if it is the text of a flat object (strings as in section 7 of RFC 8259, integers) whose members, stored in order, make that message |
| `JsonText.DecodeAnswers` | internal/tunnelproto/proto.go:47-53 | malformed exactly when it is no such object, missing type exactly when the type is empty |
| `Tunnel.ServeControl` | internal/edge/edge.go:247-277 | applies the changes of the messages read and then, on any read error, unregisters |
| `Tunnel.WireChanges` | internal/edge/edge.go:253-276 | the changes applied are those of the messages written |
| `Tunnel.UnknownTypeIgnored` | internal/edge/edge.go:259-276 | a message of an unknown type changes nothing, wherever it stands |
| `Tunnel.SessionChanges` | internal/connector/connector.go:193-250 | a session is a register and then pings and the unregister in whatever order their two goroutines write; each message has its own change |
| `Tunnel.SessionPickable` | internal/edge/edge.go:247-342 | end to end, for every such order: a connector that writes a session is registered under its names exactly from its register to its unregister or end of stream, and can be picked only then and only while connected, always so when its arrivals keep up |
| `RequestPath.OutcomeByOrder` | internal/edge/edge.go:448-515 | a forwarded request's outcome is dictated by what came first: headers are proxied, a broken stream is 1014 or (past the context deadline, or a timeout error) 524, silence until the stream deadline is 524, a client already gone gets nothing |
| `RequestPath.RefusedOutcome` | internal/edge/edge.go:439-476 | otherwise 1033, or nothing when the stream failed to open for a client already gone |
| `RequestPath.OneStatusLine` | internal/edge/edge.go:431-515 | at most one status line in any state, and never a CF error after proxied headers; the log holds the error lines written, except between a write and its own log call |
| `RequestPath.BlameAfterCancelIff` | internal/edge/edge.go:480-496 | after the client's cancel a 524 or 1014 is written if and only if the clientGone check had already passed when it cancelled; the same for the log |
| `RequestPath.CancelledYetReported` | internal/edge/edge.go:483-491 | the run in which a 524 is written and logged after the cancel, for every timeout |
| `RequestPath.SilentIff` | internal/edge/edge.go:457-487 | ties included: a finished request got no answer if and only if its client cancelled before a clientGone check |
| `RequestPath.Cause1014` | internal/connector/connector.go:277-292 | a 1014 has a broken stream behind it, never one the edge itself gave up on, and blames the connector's timeout only when that is shorter than the edge's |
| `RequestPath.ConnectorSays` | internal/connector/connector.go:252-303 | both ways, over every run: the edge hears nothing but what the connector said (the origin's status, 400 for a bad target, a broken stream for a failure) or the loss of the connection, and what it said is on the wire unless something has arrived |
| `RequestPath.RepliesCaused` | internal/connector/connector.go:252-303 | every reply on the wire or arrived comes from the very event it reports |
| `RequestPath.FailureTold` | internal/connector/connector.go:278-292 | an origin error or connector timeout judged before the context ended reaches the wire as a broken stream with that cause |
| `RequestPath.SilentOriginOutcome` | internal/edge/edge.go:448-515 | with a silent origin and a client that stays: 1014 if the connector's timeout reaches the edge before the request context ends, otherwise 524 |
| `RequestPath.TimeoutReported` | internal/connector/connector.go:277-292 | the run with a 1014 at the connector's timeout, for every timeout shorter than the edge's |
| `RequestPath.OriginReleased` | internal/connector/connector.go:263-284 | for every continuation of a run in which the handler of an opened stream has returned: STOP_SENDING was sent on whichever path it returned; and from the instant the stream's context ends at the connector no origin request runs on, none is started again, the stream is not newly reset and nothing more is sent |
| `RequestPath.EndedBecause` | internal/connector/connector.go:263-268 | nothing but STOP_SENDING or the loss of the connection ends the stream's context |
| `RequestPath.EndedSubsides` | internal/connector/connector.go:268-293 | once that context has ended, in every continuation: the origin is never asked again, the stream is reset only if it already was, nothing more is sent |
| `RequestPath.ResetIff` | internal/connector/connector.go:318-323 | only the decision resets the stream and a reset is final: it is reset if and only if a failure of the origin request was judged before the context ended |
| `RequestPath.GapHeaders` | internal/edge/edge.go:450-467 | headers between the two deadlines are still proxied |
| `RequestPath.GapError` | internal/edge/edge.go:525-530 | an origin error between the two deadlines is a 524 |
| `Recorder.RecorderObject.Success` | internal/blast/blast.go:159-166 | the three atomic steps of a success |
| `Recorder.RecorderObject.Failure` | internal/blast/blast.go:185-195 | the steps of a failure; a status is counted only when there is one |
| `Recorder.RecorderObject.RecordResult` | internal/blast/blast.go:593-639 | abandoned when the run is over, otherwise failure or success by error and status; a Cloudflare code is counted with a 5xx |
| `Recorder.RecorderObject.ConnectionClosed` | internal/blast/blast.go:452-459 | counts the drop under its own kind |
| `Recorder.RecorderObject.ResetRequestStats` | internal/blast/blast.go:168-183 | every counter and histogram back to zero |
| `Recorder.StepKeeps` | internal/blast/blast.go:159-195 | every atomic step keeps the books balanced up to what each goroutine still owes |
| `Recorder.JoinedBalances` | internal/blast/blast.go:503-532 | after the join: requests - failures is the latency count, kinds sum to failures plus drops, statuses to successes plus failures with a status, attempts to requests, abandoned and unbuildable |
| `Ledger.BookKept` | internal/blast/blast.go:159-195 | at every moment of every interleaving, for every counter and every entry of both histograms: held plus still owed is the number of replies (or closed connections) of that very kind since the last reset |
| `Ledger.BookExact` | internal/blast/blast.go:593-639 | once nobody is inside a request each is exact: failures are the 5xx and the errors while the run was on, abandoned the errors after it, status and reason entries the replies with that status and reason |
| `Ledger.NoReasonBelow500` | internal/blast/blast.go:627-636 | a status below 500 is never a reason for failure |
| `Ledger.BytesExact` | internal/blast/blast.go:159-161 | the byte counter is the bytes of the responses served |
| `Ledger.ClosedBooks` | internal/blast/load.go:20-42 | so after the join of every closed loop |
| `Ledger.OpenBooks` | internal/blast/load.go:44-77 | and of every open loop |
| `ClosedLoop.ExecKeeps` | internal/blast/load.go:20-42 | both of these in every state of every run of the worker pool |
| `ClosedLoop.OvershootBound` | internal/blast/load.go:29-37 | counted requests plus workers past the check stay at or below limit + conns*workers - 1 |
| `ClosedLoop.OvershootReached` | internal/blast/load.go:29-37 | and some interleaving reaches that bound, for every limit and pool |
| `ClosedLoop.JoinedRun` | internal/blast/load.go:41 | conservation once the wait group is done |
| `ClosedLoop.SnapshotFailuresIff` | internal/blast/blast.go:168-183 | looked at in one instant, failures exceed requests exactly between a reset's stores of the two, after a load with failures; `conn_closed` kinds always sum to the drops |
| `Progress.ReadingIff` | internal/blast/blast.go:666 | exactly when the progress line, which loads requests and then failures, shows more failures than requests, whatever steps of the recorder and of the loop happen between the loads |
| `Progress.ReadingBoundIff` | internal/blast/blast.go:666-668 | failures shown exceed requests shown by more than the requests counted between the loads if and only if both loads fall in one reset's window after a load with failures |
| `Traces.ClosedIsTrace` | internal/blast/load.go:20-42 | every run of the closed loop is a sequence of recorder steps among steps of the loop |
| `Traces.OpenIsTrace` | internal/blast/load.go:44-77 | and every run of the open loop |
| `Progress.ShownIff` | internal/blast/blast.go:666 | without any reset the line can show two numbers if and only if neither exceeds limit + conns*workers - 1, or there is no limit |
| `Progress.WindowReading` | internal/blast/blast.go:177-178 | inside a reset it can show any such number of failures and no requests |
| `OpenLoop.Inflight` | internal/blast/blast.go:361-379 | the permitted semaphore size (1 to 4096) nearest to the setting, or to conns*workers (times 8 in open mode) without one |
| `OpenLoop.OffersConserved` | internal/blast/load.go:49-75 | in flight never exceeds what `inflight()` gives for the settings, at most 4096; every offer is omitted, started or being placed; a positive limit is never exceeded |
| `OpenLoop.OmittedIff` | internal/blast/load.go:61-66 | an offer is omitted if and only if as many slots are held at that instant as `inflight()` gives; with any room it is started |
| `OpenLoop.CountersAreSteps` | internal/blast/load.go:57-68 | offered, omitted and started count those steps |
| `OpenLoop.RoomOmitsNothing` | internal/blast/load.go:61-66 | nothing is omitted while fewer slots were ever held than there are |
| `OpenLoop.AllServed` | internal/blast/load.go:49-75 | for any number of offers the limit allows there is a run that starts and serves them all |
| `OpenLoop.FullOmits` | internal/blast/load.go:61-66 | and one that fills every slot and omits the next offer |
| `OpenLoop.JoinedOffers` | internal/blast/load.go:76 | after the join offered = omitted + requests + abandoned + unbuildable |
| `OpenLoop.StartsSpread` | internal/blast/load.go:67-68 | starts per connection differ by at most one |
| `OpenLoop.OfferRate` | internal/blast/load.go:53-60 | however requests fare, any window of width W sees at most W/interval + 1 offers |
| `Pacer.TokenPacer.Wait` | internal/blast/load.go:94-116 | takes the next slot even when cancelled, and succeeds exactly when the context outlives the slot |
| `Pacer.WaitOn` | internal/blast/load.go:94-97 | a nil pacer only looks at the context; otherwise the next slot is taken, with the outcome of `Wait` |
| `Pacer.SlotClosedForm` | internal/blast/load.go:98-107 | the i-th slot is the maximum over j <= i of now_j + (i-j)*interval |
| `Pacer.SlotsLeast` | internal/blast/load.go:98-107 | the slots respect arrivals and spacing, and no such schedule starts anything earlier |
| `Pacer.RateBound` | internal/blast/load.go:79-80 | any window of width W holds at most W/interval + 1 slots |
| `LatencyHist.Hist.Add` | internal/blast/hist.go:20-30 | append until full, then overwrite slot seen mod cap |
| `LatencyHist.RingSlots` | internal/blast/hist.go:20-30 | which sample every slot holds after any number of samples |
| `LatencyHist.RingIsLast` | internal/blast/hist.go:20-30 | from two rounds on: the last cap samples, rotated |
| `LatencyHist.RingKeepsFirst` | internal/blast/hist.go:24-29 | between one and two rounds: the first sample and the last cap - 1 |
| `LatencyHist.LastNOfMIff` | internal/blast/blast.go:786-788 | exactly when "last N of M samples" is true |
| `Percentile.ReadingsAreQuantiles` | internal/ui/ui.go:397-411 | both readings are samples and true quantiles, over n-1 and n steps |
| `Percentile.ReadingsAtTheEnds` | internal/ui/ui.go:397-411 | beyond 0 and 100 the UI reads the least and the greatest sample; no samples read as zero |
| `Percentile.QuantileUnique` | internal/blast/hist.go:39-43 | a quantile is unique, so sorting order cannot matter |
| `Percentile.ReadingsCompare` | internal/blast/blast.go:823-832 | both are monotone in p; the UI's rank is the same or one below |
| `Percentile.AppendSample` | internal/ui/ui.go:389-395 | appends and trims to the window |
| `Percentile.WindowIsLast` | internal/ui/ui.go:389-395 | over any history, exactly its last `keep` elements |
| `Hub.HubObject.Sub` | internal/ui/hub.go:18-24 | a fresh open channel joins the subscribers |
| `Hub.HubObject.Unsub` | internal/ui/hub.go:26-31 | leaves the subscribers and then closes, once |
| `Hub.HubObject.Publish` | internal/ui/hub.go:33-46 | offers the value to every subscriber and drops it where the buffer is full; nothing when encoding fails |
| `Hub.NeverUnsafe` | internal/ui/hub.go:18-46 | in every interleaving no subscriber's channel is closed, no channel is closed twice and no buffer exceeds 512 |
| `Hub.StreamInOrder` | internal/ui/hub.go:33-46 | received plus buffered is an in-order subsequence of what was published while subscribed, gap-free up to the first publish that found the buffer full |
| `Hub.SubscribersAgree` | internal/ui/hub.go:38-45 | any two subscribers got common messages in the same order |
| `RateLimiter.Limiter.Allow` | internal/ui/ui.go:505-528 | charges the source's own bucket only, with the decision and note of that bucket, for any three clock readings |
| `RateLimiter.SourcesIsolated` | internal/ui/ui.go:508-515 | other sources never change a source's bucket or decisions |
| `RateLimiter.EveryLineAccounted` | internal/ui/ui.go:516-527 | calls = allowed + reported in notes + currently suppressed |
| `RateLimiter.OneBudgetAWindow` | internal/ui/ui.go:497-527 | a window, from the call that opens it until its second is over, shows the first 120 of its lines and suppresses the rest |
| `RateLimiter.NoteReports` | internal/ui/ui.go:516-520 | a note comes with the first line after a window's second and reports exactly the lines it suppressed |
| `RateLimiter.WindowFrom` | internal/ui/ui.go:511-521 | which clock reading a window counts from |
| `RateLimiter.AtMostTwoBudgets` | internal/ui/ui.go:497-527 | at most 240 lines in any half-open second |
| `Flow.FlowState.ObserveProxied` | internal/ui/ui.go:210-226 | one more request, for its connector too when it has an id; its latency joins both windows; the tunnel is up |
| `Flow.FlowState.ObserveOriginFailure` | internal/ui/ui.go:228-251 | one more request that is a 524, which proves the tunnel up, or a 502, charged to its connector |
| `Flow.FlowState.ObserveNoConnector` | internal/ui/ui.go:253-262 | one more request that is a 502; the tunnel is down with no connectors |
| `Flow.FlowState.ObserveConnectorState` | internal/ui/ui.go:264-273 | the number of connectors, and the tunnel up exactly when there are any |
| `Flow.FlowState.ApplyBlastEvent` | internal/ui/ui.go:332-361 | opens by QUIC version and 0-RTT, closes and drops, with the active count held at zero |
| `Flow.FlowState.ObserveBlastNumbers` | internal/ui/ui.go:181-188 | the numbers that the load generator prints itself (client totals, drops, protocols) replace what was there |
| `Flow.FlowState.PublishFlow` | internal/ui/ui.go:427-480 | publishes the interval, the percentiles, the average and all totals, and clears the interval |
| `Flow.FlowState.ResetFlow` | internal/ui/ui.go:795-813 | everything back to zero except what is known of the tunnel |
| `Flow.TotalsArePublished` | internal/ui/ui.go:210-262 | totals since the reset are the lines seen and the published intervals plus the current one; connector requests never exceed edge requests minus failures |
| `Flow.OriginRateNonnegative` | internal/ui/ui.go:463-468 | in every published frame 524s plus 502s are at most the requests, so origin rps is never negative |
| `Flow.ActiveIsReflected` | internal/ui/ui.go:338-358 | active connections are the maximum over suffixes of opens minus closes |
| `Flow.FrameLatencies` | internal/ui/ui.go:427-470 | the published frame: the 50th, 95th and 99th percentile and the truncated mean of the last 1024 latencies of its own interval |
| `Flow.FrameConnectors` | internal/ui/ui.go:441-446 | the published frame: for exactly the connectors that served anything since the reset, the 95th and the 99th percentile of the last 512 they served |
| `Flow.CountsApart` | internal/ui/ui.go:210-361 | 0-RTT accepted and rejected, requests and failures of each connector and each QUIC version are the numbers of their own lines |
| `Flow.ReportedNumbers` | internal/ui/ui.go:181-188 | client totals, protocols, connectors and whether the tunnel is known are those of the last line that says so |
| `Flow.DropsShown` | internal/ui/ui.go:353-373 | drops are the load's own printed count and the connections closed since |
| `Flow.TunnelShownUp` | internal/ui/ui.go:210-273 | the tunnel is shown up exactly when, of the lines that prove anything about it, the last proves it up |
| `RunSlot.Slot.Start` | internal/ui/ui.go:758-766 | claims the slot exactly when it is free |
| `RunSlot.Slot.Clear` | internal/ui/ui.go:771-773 | frees the slot |
| `RunSlot.Slot.Stop` | internal/ui/ui.go:779-784 | cancels the current owner, if any |
| `RunSlot.OneBodyAtATime` | internal/ui/ui.go:757-777 | at most one body runs; the cancel field is set exactly between a claim and that run's clear |
| `RunSlot.OnlyOwnerCancelled` | internal/ui/ui.go:779-784 | only a stop cancels, and only the current owner |
| `RunSlot.QuietAtTheEnd` | internal/ui/ui.go:768-774 | once all runs have finished the last status that a run published is idle |
| `RunSlot.IdleShownWhileRunning` | internal/ui/ui.go:768-774 | the interleaving in which idle is shown while a run goes on |
| `RunSlot.BusyShownAtRest` | internal/ui/hub.go:65-68 | the interleaving in which a browser's late frame leaves busy shown with nothing running |
| `RunSlot.DisplayExactIff` | internal/ui/ui.go:757-777 | counting the frames of connecting browsers, the display is exact after every step if and only if no busy frame is published while a cleared run's idle frame is still to come, and every browser's frame is right when it is published |
| `Snmp.ParseCounters` | internal/udpsock/udpsock.go:87-122 | succeeds exactly on two `Udp:` lines, and reads each column's last well-formed value |
| `Snmp.ParseUDPSNMP` | internal/ui/ui.go:625-645 | succeeds on the same inputs, and reads each column's last value |
| `Snmp.NumberRead` | internal/udpsock/udpsock.go:106 | a text is read as the decimal number it denotes exactly when it is one that fits 64 bits |
| `Snmp.KernelRead` | internal/udpsock/udpsock.go:87-122 | end to end on the kernel's two lines, whatever the white space: every counter is the number under its own name, for both parsers |
| `Snmp.ParsersAgree` | internal/udpsock/udpsock.go:100-116 | the same four counters whenever the value row is well-formed, whatever the columns repeat or lack |
| `Snmp.ReadersAgreeIff` | internal/ui/ui.go:637-642 | they agree on a column, repeated or not, if and only if it is absent, its last occurrence is well-formed, or what that malformed one is taken for is the last well-formed value before it |
| `Snmp.ParsersAgreeIff` | internal/udpsock/udpsock.go:87-122 | on any lines both accept, the four counters are equal if and only if that holds of the four columns |
| `Snmp.ReadersDiffer` | internal/udpsock/udpsock.go:108-113 | a number that does not fit, and a repeated column with a malformed last value, tell them apart |
| `Snmp.DeltasTelescope` | internal/udpsock/udpsock.go:65-75 | in each of the seven fields, summed deltas are last minus first modulo 2^64 |
| `Snmp.DeltaMeans` | internal/udpsock/udpsock.go:65-75 | in each field a delta is the increase when the counter did not wrap, and always takes the earlier sample to the later one modulo 2^64 |

## Left out

- quic-go, http3, TLS, sockets, qlog, certificates and the origin's handlers: events and errors of the model.
- The quicerr classification, the probe, the command line, input validation and command building: one branch decides each claim.
- JSON beyond flat objects of strings and integers: whitespace between tokens, other value types, surrogate pairs in `\u` escapes and case-insensitive key matching are not modelled, nor is UTF-8 itself.
- Timer wake-up delay: the pacer is about granted slots. In `RequestPath` a read returns, a failure is handled and an origin request ends with its context or its timeout at the instant it becomes possible, and the context deadline counts as passed at its instant. Other events at the very same instant may fall either way, so `Decided` speaks about strict order.
- Float rounding: rps to interval, and percentages.
- Integer width of ids, byte counts and int counters: unbounded here, except the 64-bit tickets, parsed counters and deltas; the conversion of the number of live connectors to 32 bits for hashing is taken as exact.
- One clock reading per critical section of the registry and the pacer.
- The response body after the status line: its copy ends, well or not, without another status line.
- Latency values inside the recorder, `verdict`, `summary` and the rest of the progress line; response protocols and Cloudflare codes are fields of the recorder object and take no part in its interleavings.
- Health and impairment in the flow frame: passed in as they are; how log lines are told apart (regular expressions) is not modelled.
- ControlProto.ControlStream.Read: rejects valid JSON beyond what the connector writes (white space between tokens, other value types), because only flat objects of strings and integers are parsed.
- Reconnect backoff in `reconnectLoop`, and a connector that skips or delays registration.
- Scanner limits: a line too long for `bufio.Scanner` fails one SNMP reader; both readers here get the same list of lines.
- Non-ASCII white space in `strings.Fields`.
