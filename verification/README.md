# Verification of the X-MSG-IM transaction and message layer

This project models the layer of X-MSG-IM that turns received bytes into PDUs, PDUs into
transactions, and transactions into callbacks, and proves what that layer is for:

* **Streams.** TCP and RUDP peel PDUs off a byte stream; WebSocket first peels off masked frames,
  unmasks them in place and glues their payloads together. Each decoder is compared with a one-pass
  decoder of the whole stream, for every way the bytes may be cut.
* **Transactions.** Begin, END, timeout sweep and clean on the table of initiative transactions, with
  callbacks that may begin further transactions at any point; ids wrap at 2^32. Exactly-once
  callbacks, conservation, and the timeout bound hold over whole runs.
* **Two ends.** Initiative and passive side with delayed, reordered and repeated PDUs: replies reach
  the transaction whose BEGIN they answer; keep-alive falls silent.
* **Threads.** Registry replication to all workers, and the guard around reconnection, over every
  interleaving.
* **All of it together.** Request, reply and callback over two byte streams, in chunks of any sizes:
  whoever is called back is told what the other end answered to that very request.

The files build on each other in this order: `Codec`, `PduStream`, `Framing`, `WebSocket`,
`WebSocketRuns`, `WebSocketRoundTrip`, `WebSocketMended`, `ControlFrames`, `Openings`; `Proto`,
`Trans`, `TransTable`, `Timing`, `Passive`, `Correlation`, `ReplyOrigins`; `Registry`, `Dispatch`,
`Verdicts`, `Requests`, `Channel`, `KeepAlive`, `EndToEnd`, `RequestReply`; `Reconnect`.

Objects that the C++ updates in place are classes with the same fields, and each method is proved
against a function on values (`Drain`, `Decoded`, `Step`, `Settle`, `Handle`, `Deeds`). What the
source promises is then proved about those functions, and `Openings`, `Verdicts` and `Requests` say
without them which bytes are refused, which PDUs close a channel, and what is begun for a request. Behaviour that spans threads or both ends of a
channel is a state machine whose steps are the single accesses to shared state.

## Where the code departs from its intent

The code is modelled as it is written. Where that makes a promise false, the exact condition under
which it holds is proved, with a concrete input that breaks it.

* `ws/XmsgImWebSocketChannel.cpp:239` erases `[begin, end + used)` where the code around it needs
  `[begin, begin + used)`. When bytes were cached before a frame and some are left over after it, the
  cache is emptied if nothing was decoded, and the call is undefined otherwise (`Undefined`,
  `defined == false`). `WebSocketRuns.CacheExact` gives the condition, and `SplitTwiceForges` and
  `SplitTwiceUndefined` give inputs. `WebSocketMended` proves the intended decoder correct on all
  inputs, and `MendExact` says on which branch the two differ.
* `ws/XmsgImWebSocketChannel.cpp:176-187` reads a 16-bit length after checking for two bytes only.
  The model gives `decode` two readable bytes behind the received ones. `ReadsExact` says when those
  bytes matter; `ReadAheadCloses` is an input, and `WideBufferNeverReadsAhead` the buffer size from
  which they never do.
* `ws/XmsgImWebSocketChannel.cpp:146-155` steps over two bytes only of ping, pong and continuation
  frames and takes their mask and payload for frames. `ControlFrames.ControlFrameExact` says for which
  masks and payloads that does no harm, and `PingCloses` gives a ping that closes the channel.
* `ws/XmsgImWebSocketChannel.cpp:61` looks for the blank line at every fourth position only.
  `WebSocket.HandshakeExact` says which requests followed by other bytes are recognised, and
  `HandshakeMissed` gives one that is not.
* `rudp/XmsgImRudpChannel.cpp:22-26` does not set `lastCheckTransTs`. `Timing.TimeoutBoundExact` gives
  the initial values for which the timeout bound holds, `LateFirstSweep` a run that breaks it.
* `tcp/XmsgImTcpH2N.cpp:104-110` and `tcp/XmsgImTcpN2H.cpp:39-44` sweep established channels only, but
  `begin` does not look at `est`. `Timing.TimeoutBoundExact` bounds what is pending on a channel while
  it is up; `PlainBoundExact` says for which channels the bound holds at all times, and `DownKeeps`
  gives a run in which a transaction stays for as long as its channel is down.
* `XmsgImTransPassive.cpp:122-130` does not mind being called twice: `Passive.EndsPerBegin` counts the
  ENDs a BEGIN gets, and `TwoEndsTwoReplies` gives a run with two.
* `XmsgImChannel.cpp:165-170` overwrites an entry of the table when an id comes round again.
  `TransTable.ConservationExact` and `Correlation.CorrelationExact` say exactly when that matters,
  `WrapLoses` and `StaleEndMisleads` give runs in which it does.
* `XmsgImChannel.cpp:471-482` logs the start of a passive transaction before it looks for a user;
  without one the transaction is neither called nor finished (`Dispatch.StartedIsCalledExact`, with
  `DeniedHappens` as an input).
* `XmsgImN2HMsgMgr.cpp:63-82` waits for all workers, so a registration made on a worker's own thread
  does not return (`Registry.RegOnWorker`, with `WorkerWaits` as an instance).
* `tcp/XmsgImTcpH2N.cpp:38-56` tests `est` before it takes `trying`, and `est` is set by a queued
  future, so a second connection can be set up over a first one (`Reconnect.SecondConnection`, with
  `DoubleHappens` as an interleaving).

## Model

| member | source | states |
|---|---|---|
| Codec.LengthPrefixedIsLawful | tcp/XmsgImTcpChannel.cpp:37-60 | a codec of length-prefixed byte strings of 1 to 255 bytes meets the laws assumed of `XscProtoPdu::decode` (consumes between one byte and all of them, verdicts survive later bytes), and its encoder inverts it |
| Codec.BookIsLawful | tcp/XmsgImTcpChannel.cpp:37-60 | for any list of PDUs of any kind there is a codec that meets the laws and carries all of them |
| Codec.PrefixWaits | tcp/XmsgImTcpChannel.cpp:60 | a strict prefix of an encoded PDU is neither a PDU nor an error |
| PduStream.Drain | tcp/XmsgImTcpChannel.cpp:31-63 | the bytes left waiting hold no complete PDU |
| PduStream.DrainAppend | tcp/XmsgImTcpChannel.cpp:31-63 | decoding a prefix and then its leftover with the rest is decoding everything at once, up to and including the PDU that closes |
| PduStream.StreamChannel.EvnRecv | tcp/XmsgImTcpChannel.cpp:31-63 | the receive loop answers -1 or exactly the number of bytes the greedy decoding takes, with the same handler state; it terminates |
| PduStream.DrainEncoding | rudp/XmsgImRudpChannel.cpp:28-60 | a stream of encoded PDUs delivers exactly them, in order, up to the first refused, and leaves exactly the incomplete tail |
| PduStream.DrainGarbage | tcp/XmsgImTcpChannel.cpp:55-59 | a format error behind complete PDUs closes the channel after all of them have been delivered |
| PduStream.DrainPart | tcp/XmsgImTcpChannel.cpp:31-63 | any part of a stream of encodings delivers some number of the PDUs, and its leftover and the bytes to come are the encodings of the others |
| PduStream.ReceiveTwice | rudp/XmsgImRudpChannel.cpp:28-60 | two reads do what one read of both does |
| PduStream.ChunkIndependence | rudp/XmsgImRudpChannel.cpp:28-60 | any chunking of any bytes ends in the same handler state, leftover and verdict as one read |
| PduStream.StreamRoundTrip | tcp/XmsgImTcpChannel.cpp:31-63 | PDUs sent are the PDUs handled, for every chunking, with nothing left over |
| Framing.ReadHeaderExact | ws/XmsgImWebSocketChannel.cpp:128-189 | the header decision as coded is the decision on received bytes, except exactly when an unreceived 16-bit length exceeds the buffer |
| Framing.HeaderOf | ws/XmsgImWebSocketChannel.cpp:128-189 | a frame is taken only when all of it has arrived and fits the buffer |
| Framing.HeaderStable | ws/XmsgImWebSocketChannel.cpp:128-189 | a decision other than waiting is not changed by later bytes |
| Openings.HeaderExact | ws/XmsgImWebSocketChannel.cpp:128-189 | on the bits of the first bytes and the sizes alone: which frames are refused, stepped over, waited for and taken |
| Openings.CodedHeaderExact | ws/XmsgImWebSocketChannel.cpp:173-187 | the decision as coded differs exactly where a 16-bit length that has not arrived, high byte first, is too large in the memory behind |
| Openings.DeframeExact | ws/XmsgImWebSocketChannel.cpp:190-199 | a complete data frame yields each of its bytes behind the mask combined with its mask byte, and cutting goes on behind it; a control opening is two bytes |
| Openings.RefusalExact | ws/XmsgImWebSocketChannel.cpp:130-172 | the channel closes on two opening bytes, whatever follows, if and only if FIN or MASK is missing, the opcode is none of 0, 1, 2, 9 and 10, or a data frame is empty or of 64-bit length; so on a close frame |
| Openings.RefusedCloses | ws/XmsgImWebSocketChannel.cpp:130-172 | decode answers so in any state and with any cache |
| Openings.OversizeCloses | ws/XmsgImWebSocketChannel.cpp:183-187 | a frame over the buffer size closes the channel as soon as its length is known |
| Framing.DeframeStops | ws/XmsgImWebSocketChannel.cpp:123-202 | cutting stops at a suffix of the bytes that is refused or holds no complete frame |
| Framing.DeframeAppend | ws/XmsgImWebSocketChannel.cpp:123-202 | cutting a prefix and then its leftover with the rest is cutting everything at once |
| Framing.UnmaskedTwice | ws/XmsgImWebSocketChannel.cpp:190-194 | unmasking in place touches each payload byte of the complete frames once: a second pass restores the memory |
| Framing.FrameRoundTrip | ws/XmsgImWebSocketChannel.cpp:163-194 | a frame a client sends, with either spelling of the length and any mask, is taken whole and yields its payload |
| Framing.DeframeWire | ws/XmsgImWebSocketChannel.cpp:123-202 | the frames sent are the frames cut, with nothing left over |
| WebSocket.DecodedIsCut | ws/XmsgImWebSocketChannel.cpp:123-202 | the interleaved loop is cutting all received bytes and then joining the payloads, except where an unreceived length refuses the tail |
| WebSocket.LeftoverFits | ws/XmsgImWebSocketChannel.cpp:183-189 | what `decode` leaves is shorter than the buffer, so the buffer never fills with bytes nobody takes |
| WebSocket.WebSocketChannel.CheckHandShake | ws/XmsgImWebSocketChannel.cpp:57-79 | bytes wait exactly while no blank line ends a multiple of four bytes before their end; otherwise the request before the last such line is parsed, and the channel is set up for its key and takes the bytes up to there, or is closed if it has none |
| WebSocket.HandshakeExact | ws/XmsgImWebSocketChannel.cpp:57-79 | a complete request followed by more bytes is recognised if and only if they are a multiple of four |
| WebSocket.HandshakeMissed | ws/XmsgImWebSocketChannel.cpp:61 | one byte sent along with its request hides it |
| WebSocket.WebSocketChannel.DecodeXscPdu | ws/XmsgImWebSocketChannel.cpp:243-275 | the inner loop is the greedy decoding of its bytes |
| WebSocket.WebSocketChannel.DecodeFrameBinary | ws/XmsgImWebSocketChannel.cpp:204-241 | one payload changes handler and cache as `JoinFrame` says, on both branches of the cache, and is undefined where the erase is |
| WebSocket.WebSocketChannel.UnmaskFrame | ws/XmsgImWebSocketChannel.cpp:190-194 | exactly the payload of one frame is unmasked, every other byte of the array is unchanged |
| WebSocket.WebSocketChannel.HeaderAt | ws/XmsgImWebSocketChannel.cpp:128-189 | the branches on the first bytes of a frame in the array decide as specified |
| WebSocket.WebSocketChannel.DecodeFrame | ws/XmsgImWebSocketChannel.cpp:126-200 | one turn of the loop takes, skips, refuses or leaves the frame at its position and changes the array only there |
| WebSocket.WebSocketChannel.Decode | ws/XmsgImWebSocketChannel.cpp:123-202 | one call consumes, unmasks, delivers and caches as specified; the unconsumed tail and the memory behind it are unchanged |
| WebSocket.WebSocketChannel.EvnRecv | ws/XmsgImWebSocketChannel.cpp:29-37 | until it has succeeded the handshake gets the bytes, with the same promise; from then on the decoder |
| WebSocketRuns.JoinExact | ws/XmsgImWebSocketChannel.cpp:204-241 | a frame is joined as one stream would be if and only if not both its ends fall inside PDUs |
| WebSocketRuns.CacheExact | ws/XmsgImWebSocketChannel.cpp:204-241 | after every frame the cache is the undecoded suffix of all payloads, and the deliveries those of one stream, if and only if no two consecutive frame ends fall inside PDUs |
| WebSocketRuns.StepExact | ws/XmsgImWebSocketChannel.cpp:123-202 | for any bytes and any framing, one read leads from one pass of the code over the past to one pass over past and read, unless memory behind the read closes the channel |
| WebSocketRuns.ReadsExact | ws/XmsgImWebSocketChannel.cpp:123-202 | chunk independence for arbitrary bytes framed in any way: after every read handler, cache, leftover and verdict are those of one pass over all bytes so far, if and only if no read is decided by memory behind it |
| WebSocketRuns.ReadsAgree | ws/XmsgImWebSocketChannel.cpp:123-202 | two ways to read the same bytes end alike |
| WebSocketRuns.OnceIsWhole | ws/XmsgImWebSocketChannel.cpp:204-241 | one pass of the code is the greedy decoding of the concatenated payloads where no PDU is split twice |
| WebSocketRuns.WideBufferNeverReadsAhead | ws/XmsgImWebSocketChannel.cpp:176-187 | a buffer as wide as the widest frame is never decided by memory behind the read |
| WebSocketRuns.ReadAheadCloses | ws/XmsgImWebSocketChannel.cpp:176-187 | with any smaller buffer two good bytes can close the channel |
| WebSocketRoundTrip.SplitTwiceIsCutsTwice | ws/XmsgImWebSocketChannel.cpp:204-241 | the receiver's condition is one a sender can check on the lengths of its PDUs and frames |
| WebSocketRoundTrip.WholeRoundTrip | ws/XmsgImWebSocketChannel.cpp:123-275 | the one-pass decoder inverts framing, masking and encoding |
| WebSocketRoundTrip.RoundTrip | ws/XmsgImWebSocketChannel.cpp:123-275 | the code delivers exactly the PDUs sent, up to the first refused, and otherwise ends with an empty cache, for every read size, every mask and every framing outside the two conditions |
| WebSocketRoundTrip.SplitTwiceForges | ws/XmsgImWebSocketChannel.cpp:239 | frames of one, one and three bytes deliver a PDU that nobody sent |
| WebSocketRoundTrip.SplitTwiceUndefined | ws/XmsgImWebSocketChannel.cpp:239 | a frame that ends one PDU and begins another leaves the cache undefined |
| WebSocketMended.MendExact | ws/XmsgImWebSocketChannel.cpp:233-240 | code and intent differ if and only if bytes were cached before the frame and some are left over after it |
| WebSocketMended.MendedChunkIndependence | ws/XmsgImWebSocketChannel.cpp:123-275 | the intended decoder handles any bytes, malformed ones too, in any chunks as one pass does |
| WebSocketMended.MendedRoundTrip | ws/XmsgImWebSocketChannel.cpp:123-275 | the intended decoder delivers every PDU list through every framing, mask and chunking, and ends with nothing cached |
| ControlFrames.ControlPairsExact | ws/XmsgImWebSocketChannel.cpp:146-155 | bytes are consumed whole without a payload if and only if they pair up into control openings |
| ControlFrames.ControlFrameExact | ws/XmsgImWebSocketChannel.cpp:146-155 | a control frame leaves the frames of whatever follows it alone if and only if its mask and payload pair up into control openings |
| ControlFrames.EmptyControlFrameExact | ws/XmsgImWebSocketChannel.cpp:146-155 | without a payload the condition is on the four mask bytes |
| ControlFrames.ControlFrameHarmless | ws/XmsgImWebSocketChannel.cpp:123-202 | where it is met, the channel does with the frame at any frame boundary what it does without it |
| ControlFrames.PingCloses | ws/XmsgImWebSocketChannel.cpp:146-155 | a masked ping without payload, its mask zero, closes the channel whatever follows |
| Proto.FirstMatchExact | XmsgImTrans.cpp:43-55 | a lookup finds the value of a tag before which no entry has that tag, and nothing exactly when no entry has it |
| Trans.XmsgImTrans.AddOob | XmsgImTrans.cpp:36-41 | an entry is appended, making the list when there is none |
| Trans.XmsgImTrans.AddAll | XmsgImChannel.cpp:61-65 | entries keep their order; an empty list leaves no header |
| Trans.XmsgImTrans.GetOob | XmsgImTrans.cpp:43-55 | the search returns the first match |
| Trans.XmsgImTrans.HaveOob | XmsgImTrans.cpp:57-68 | answers true exactly when getOob finds a value |
| Trans.XmsgImTrans.EndLocally | XmsgImTransInitiative.cpp:30-37 | a local end sets outcome and time and makes the callback once |
| Trans.XmsgImTrans.EndByReply | XmsgImTransInitiative.cpp:39-75 | an END makes the callback once on every path; an unparsable body turns the outcome into an exception and the answer into false |
| Trans.Open | XmsgImChannel.cpp:55-71 | the transaction carries the caller's list in order, behind the intercept entry in the 2ne form |
| Trans.Accept | XmsgImTransPassive.cpp:27-40 | the passive transaction keeps the received list and answers to the received id |
| Trans.RequestArrives | XmsgImChannel.cpp:213-246 | the BEGIN carries the caller's message under the new id, and a header exactly when the caller gave entries or used the 2ne form |
| Trans.OobArrives | XmsgImChannel.cpp:216-223 | each tag reads at the passive end as its first value in the caller's order; the intercept tag reads as enabled in the 2ne form, whatever was added |
| Requests.BeginExact | XmsgImChannel.cpp:165-170 | after a begin the table holds the request's transaction, with its creation time, kind and message, under the next id, and its BEGIN has been sent with its message and list |
| Requests.PendingUntouched | XmsgImChannel.cpp:165-170 | a pending transaction is not changed while it stays pending |
| Requests.RequestExpires | XmsgImChannel.cpp:562-583 | a sweep takes a pending request's transaction if and only if ten seconds have passed since the last one and the timeout since the request was made |
| Requests.RequestReplied | XmsgImTransInitiative.cpp:39-75 | an END hands its message to a raw request as it came, to any other as what it parses to, or as an exception, with its outcome, text and list and the time |
| TransTable.TidUnique | XmsgImChannel.cpp:398-401 | ids do not repeat within a window of 2^32 transactions |
| TransTable.OverwriteExact | XmsgImChannel.cpp:165-170 | a begin overwrites an entry if and only if the transaction begun 2^32 before it is pending, and it is that one |
| TransTable.StartKeyed | XmsgImChannel.cpp:165-170 | every key is its transaction's stid; a begin adds one pending transaction and loses at most the one 2^32 before |
| TransTable.StepKeeps | XmsgImChannel.cpp:487-606 | every step keeps the invariant: each transaction in exactly one place, each with its due number of callbacks |
| TransTable.ExactlyOnce | XmsgImTransInitiative.cpp:30-75 | in every reachable state each begun transaction is in exactly one place; pending ones were never called back, done ones exactly once |
| TransTable.RunTold | XmsgImChannel.cpp:584-605 | in every run a callback after a timeout or a clean is told which of the two it was |
| TransTable.LostExact | XmsgImChannel.cpp:169 | a run loses no transaction if and only if no begin of it collides |
| TransTable.ConservationExact | XmsgImChannel.cpp:562-606 | begun is pending, waiting or called back, over the whole run, if and only if no begin found the transaction 2^32 before it pending |
| TransTable.FewBeginsConserved | XmsgImChannel.cpp:562-606 | a channel with at most 2^32 begins loses none |
| TransTable.WrapLoses | XmsgImChannel.cpp:165-170 | 2^32 + 1 begins with nothing ended lose one |
| TransTable.SettleExact | XmsgImChannel.cpp:584-588 | all waiting callbacks are made in order, no others; what they begin stays pending |
| Requests.SettleBegins | XmsgImChannel.cpp:584-588 | the callbacks of collected transactions begin exactly the requests they make, in order, each sent and entered as its own |
| TransTable.SweepExact | XmsgImChannel.cpp:562-589 | a due sweep calls back exactly the expired transactions, each once, in any map order, and neither ends nor loses what the callbacks begin |
| Requests.SweepBegins | XmsgImChannel.cpp:562-589 | so do those of a due sweep |
| TransTable.CleanExact | XmsgImChannel.cpp:591-606 | a clean calls back exactly what was pending at entry; afterwards only what the callbacks began is pending |
| Requests.CleanBegins | XmsgImChannel.cpp:591-606 | and those of a clean |
| TransTable.SettleIsRun | XmsgImChannel.cpp:584-588 | a sweep or clean with its callbacks is a run of single steps |
| Timing.NextTimed | tcp/XmsgImTcpN2H.cpp:39-44 | the timing invariant is kept by every step, every passing of time, every loss and every reconnect, with only established channels swept |
| Timing.TimeoutsHold | tcp/XmsgImTcpH2N.cpp:104-110 | over every timed run no timeout fires before gts + tm, and while a channel is established nothing is pending 10 seconds and one dida gap past its deadline and the last time the channel came up |
| Timing.LateFirstSweep | rudp/XmsgImRudpChannel.cpp:22-26 | an unset lastCheckTransTs past creation + tm breaks both bounds, by a concrete run |
| Timing.DownKeeps | tcp/XmsgImTcpH2N.cpp:104-110 | on a channel that is down a transaction begun stays pending for any length of time, by a concrete run |
| Timing.TimeoutBoundExact | tcp/XmsgImTcpChannel.cpp:28 | the bound for established channels holds over all runs, with any losses and reconnects, if and only if lastCheckTransTs starts no later than creation + tm |
| Timing.PlainBoundExact | tcp/XmsgImTcpN2H.cpp:39-44 | the bound holds at all times of all runs if and only if, besides, the channel is created established and never lost |
| Channel.XmsgImChannel.constructor | XmsgImChannel.cpp:30-36 | a new channel has an empty table, an arbitrary 32-bit counter, and whatever lastCheckTransTs its heir gives it |
| Channel.XmsgImChannel.GenTid | XmsgImChannel.cpp:398-401 | the counter advances by one and wraps at 2^32 |
| Channel.XmsgImChannel.FutureBegin | XmsgImChannel.cpp:165-170 | the map of objects changes as a begin step changes the table |
| Channel.XmsgImChannel.Begin | XmsgImChannel.cpp:128-170 | a request enters the table under a new id with its own creation time, kind and message, as the begin step says |
| Channel.XmsgImChannel.EvnEnd | XmsgImChannel.cpp:487-498 | an END does a Reply step and its callback's begins, or nothing when its id is unknown |
| Channel.XmsgImChannel.EvnBegin | XmsgImChannel.cpp:454-485 | a BEGIN is looked up, parsed, started and called, or refused, as specified; its callback may bind a user and begin transactions |
| Channel.XmsgImChannel.EvnUnidirection | XmsgImChannel.cpp:524-555 | a one-way message is delivered or refused as specified, its callback with the same freedom |
| Channel.XmsgImChannel.EvnMsg | XmsgImChannel.cpp:403-452 | dispatch changes the channel object as `Handle` changes its value |
| Channel.XmsgImChannel.TakeOut | XmsgImChannel.cpp:570-580 | the erasing loop takes exactly the expired, or all, entries, in some order of the map |
| Channel.XmsgImChannel.EndAll | XmsgImChannel.cpp:584-588 | ending the collected objects one by one, with callbacks that change the map meanwhile, is `Settle` |
| Channel.XmsgImChannel.CheckTransInit | XmsgImChannel.cpp:562-589 | before ten seconds have passed nothing changes; from then on the sweep on objects is the sweep step with all its callbacks, and the time is kept |
| Channel.XmsgImChannel.Dida | tcp/XmsgImTcpN2H.cpp:39-44 | an established channel is swept, any other is left alone |
| Channel.XmsgImChannel.CleanTransInit | XmsgImChannel.cpp:591-606 | the clean on objects is the clean step with all its callbacks |
| Passive.XmsgImTransPassive.EndWith | XmsgImTransPassive.cpp:42-47 | success with a message, queued once |
| Passive.XmsgImTransPassive.EndRet | XmsgImTransPassive.cpp:49-53 | an outcome alone, queued once |
| Passive.XmsgImTransPassive.EndFull | XmsgImTransPassive.cpp:55-61 | outcome, description and message, queued once |
| Passive.XmsgImTransPassive.EndRaw | XmsgImTransPassive.cpp:79-85 | outcome, description and raw message, queued once |
| Passive.XmsgImTransPassive.EndAndLazyClose | XmsgImTransPassive.cpp:105-120 | outcome and lazy close, the description only when given, queued once |
| Passive.DeedsExact | XmsgImTransPassive.cpp:132-156 | on every path of a queued end: one finish, one END exactly when due, a close exactly when asked for, and no lazy close before the END |
| Passive.XscLine.SendEnd | XmsgImChannel.cpp:248-289 | each of the three branches finishes once and then sends one END, with the raw message, none, or the message |
| Passive.XmsgImTransPassive.RunEnd | XmsgImTransPassive.cpp:132-156 | a queued end does exactly these deeds on its channel, in this order |
| Passive.XscLine.RunFuture | XmsgImTransPassive.cpp:126-129 | the front of the queue is run, by its own transaction as it then is |
| Passive.LineKeeps | XmsgImTransPassive.cpp:122-156 | over any order of ends, futures, ups and downs: finishes are the executed ends, ENDs sent are exactly those due, each under its BEGIN's id, none while the channel is down |
| Passive.EveryEndAccounted | XmsgImTransPassive.cpp:122-156 | over whole runs every call of end is finished once, in the order of the calls, or still queued, and the ENDs sent are exactly those due |
| Passive.EndsPerBegin | XmsgImTransPassive.cpp:122-156 | a BEGIN gets one END for each call of end executed without failure on an established channel, never more than end was called; with an empty queue every call has been executed |
| Passive.TwoEndsTwoReplies | XmsgImTransPassive.cpp:122-130 | two calls of end send two ENDs |
| Passive.ReplyArrives | XmsgImTransInitiative.cpp:48-69 | outcome, description and message of the passive end are what the initiative end is ended with, an unparsable message being an exception |
| Passive.ReplyOobArrives | XmsgImTransInitiative.cpp:41-46 | the reply's list reads at the initiative end as its first values in the order they were added |
| Correlation.NetKeeps | XmsgImChannel.cpp:487-498 | every step of the two ends keeps ids, accounts and matches in order |
| Correlation.CorrelationExact | XmsgImChannel.cpp:487-498 | for every run: an END that completed a transaction answers that transaction's BEGIN if and only if that BEGIN was among the last 2^32 |
| Correlation.RepliesCorrelate | XmsgImChannel.cpp:487-498 | with at most 2^32 begins no reply is mistaken, under delay, reordering, repetition and reconnects |
| Correlation.DuplicateEndHarmless | XmsgImChannel.cpp:489-494 | after an END has arrived, and whatever else happens, another copy of it changes nothing while fewer than 2^32 transactions were begun after the one it answers |
| Correlation.StaleEndMisleads | XmsgImChannel.cpp:489-497 | a run of 2^32 + 1 begins in which the first reply completes the last transaction |
| Registry.XmsgImMsgMgr.Reg | XmsgImMsgMgr.cpp:28-38 | a name is registered once; a second stub is refused and changes nothing |
| Registry.XmsgImMsgMgr.SetItcp | XmsgImMsgMgr.cpp:40-44 | the interceptor is replaced |
| Registry.XscWorker.RunFuture | XmsgImN2HMsgMgr.cpp:70-79 | a worker's turn puts the stub or the interceptor into its manager, made on first need |
| Registry.XmsgImN2HMsgMgr.CopyMsg2AllXscWorker | XmsgImN2HMsgMgr.cpp:63-82 | the loop queues the job once for every worker, behind what is queued there |
| Registry.XmsgImN2HMsgMgr.Reg | XmsgImN2HMsgMgr.cpp:27-38 | on objects, a new name changes master and queues as the steps of the machine do, a known one changes nothing |
| Registry.XmsgImN2HMsgMgr.SetItcp | XmsgImN2HMsgMgr.cpp:40-61 | the same for the interceptor |
| Registry.QueueLoop | XmsgImN2HMsgMgr.cpp:67-80 | uninterrupted, the machine's queueing steps end where the loop ends |
| Registry.ActKeeps | XmsgImN2HMsgMgr.cpp:63-82 | every step of the registering thread and of the workers keeps the replication invariant |
| Registry.WorkersFollowMaster | XmsgImN2HMsgMgr.cpp:27-82 | over every interleaving a worker finds nothing or the master's stub; between registrations all workers equal the master; an interceptor in use is the old or the new one |
| Registry.ReturnExact | XmsgImN2HMsgMgr.cpp:63-82 | the join counter releases the caller exactly when no worker has the job left, and then all equal the master |
| Registry.RegExact | XmsgImMsgMgr.cpp:51-55 | over every run a lookup finds the first stub registered under the name: the master at once, a worker that or nothing until its job has run, every worker once reg has returned; later registrations of the name change nothing |
| Registry.ItcpExact | XmsgImMsgMgr.cpp:46-49 | over every run a worker lets PDUs through until an interceptor was set, and whenever no setItcp is under way asks the one set last |
| Registry.RegisteredForGood | XmsgImN2HMsgMgr.cpp:27-38 | a registered stub stays, over every run |
| Registry.RegOnWorker | XmsgImN2HMsgMgr.cpp:63-82 | called on a worker's thread it returns if and only if the name was taken |
| Registry.WorkerWaits | XmsgImN2HMsgMgr.cpp:63-82 | the first registration of a server with one worker, made on its thread, waits for good |
| Dispatch.TableOf | XmsgImChannel.cpp:403-498 | a PDU ends at most one transaction, and after that its callback only begins some |
| Dispatch.OnlyEndsComplete | XmsgImChannel.cpp:403-498 | a PDU calls a transaction back if and only if it is an END that reaches a pending one: that one, whatever its body; all others stay pending |
| Requests.HandleBegins | XmsgImChannel.cpp:403-498 | and the callback of a PDU, which begins nothing else |
| Verdicts.AnswerExact | XmsgImChannel.cpp:403-498 | exactly which PDUs close the channel: by transaction layer, manager, interceptor, kind, registration, parsing, user, and for an END only a message that its pending, not raw transaction cannot parse |
| Verdicts.EffectExact | XmsgImChannel.cpp:403-555 | exactly which PDUs send a pong, start and call a passive transaction, deliver a notice, bind a user, and call a transaction back |
| Verdicts.LateEndHarmless | XmsgImChannel.cpp:489-494 | an END for which nothing waits changes nothing and leaves the channel open |
| Dispatch.StartedIsCalledExact | XmsgImChannel.cpp:454-485 | a passive transaction is started but not called exactly on a BEGIN that needs a user where there is none, and that closes the channel |
| Dispatch.DeniedHappens | XmsgImChannel.cpp:471-482 | such a BEGIN: a request that needs a login, before it |
| Dispatch.DeliveredAreCalled | XmsgImChannel.cpp:454-485 | over any PDUs all but at most the last passive transaction started is called |
| Dispatch.HandleIsRun | XmsgImChannel.cpp:403-498 | what a PDU does to the table is a run of single steps |
| Dispatch.DrainIsRun | tcp/XmsgImTcpChannel.cpp:31-63 | so is what any received bytes do |
| Dispatch.SessionIsRun | tcp/XmsgImTcpChannel.cpp:31-63 | any bytes in any chunks, between the channel's own begins, sweeps and cleans, leave a table that a run of steps reaches |
| Dispatch.SessionExactlyOnce | tcp/XmsgImTcpChannel.cpp:31-63 | exactly-once callbacks from bytes to callbacks |
| KeepAlive.AnswerIsDispatch | XmsgImChannel.cpp:407-419 | a one-byte PDU is answered as dispatch answers it |
| KeepAlive.XmsgImTcpH2N.Heartbeat | tcp/XmsgImTcpH2N.cpp:112-121 | one ping when the period has passed, and the time of the clock is kept; nothing otherwise |
| KeepAlive.XmsgImTcpH2N.Dida | tcp/XmsgImTcpH2N.cpp:104-110 | only an established channel pings |
| KeepAlive.BeatSteady | XmsgImChannel.cpp:407-414 | a delivery takes exactly one from twice the pings plus the pongs in flight; a ping yields one pong, a pong nothing |
| KeepAlive.StaysSteady | XmsgImChannel.cpp:407-414 | over every run the channel stays open, pongs never exceed pings, deliveries never exceed twice the pings |
| KeepAlive.FallsSilent | XmsgImChannel.cpp:407-414 | without new pings the traffic ends after exactly that many deliveries |
| KeepAlive.PingsApart | tcp/XmsgImTcpH2N.cpp:112-121 | over any run of dida calls n pings take at least n periods, when the clock is not behind the time dida is called with |
| KeepAlive.KeepAliveExact | XmsgImChannel.cpp:407-414 | keep-alive works on all runs if and only if the pong carries the ping bit and differs from the ping |
| EndToEnd.BeginsDelivered | XmsgImChannel.cpp:454-485 | the other end calls back once for each BEGIN a run has sent, in order, under its own id; one of them may log in the user that later ones need |
| EndToEnd.BeginsOverTcp | tcp/XmsgImTcpChannel.cpp:31-63 | the same from bytes, for every chunking over TCP or RUDP |
| EndToEnd.BeginsTravel | tcp/XmsgImTcpChannel.cpp:31-63 | for every run there is a codec for which all of this happens |
| EndToEnd.BeginsOverWebSocket | ws/XmsgImWebSocketChannel.cpp:123-275 | the same through masked frames and reads of any sizes |
| ReplyOrigins.RepliesAreEnds | XmsgImTransInitiative.cpp:39-75 | over every run of the two ends, a transaction called back by a reply is what an END makes of it that was sent for its own BEGIN, unless 2^32 were begun since |
| RequestReply.BytesAreSteps | tcp/XmsgImTcpChannel.cpp:31-63 | whatever bytes are read when at either end, table and passive side are those of a run of the two-ended machine |
| RequestReply.BeginsServed | XmsgImChannel.cpp:454-485 | over two byte streams each BEGIN starts at most one passive transaction, in order, with its own id, message and out-of-band data |
| RequestReply.RepliesAnswerRequests | XmsgImTransInitiative.cpp:39-75 | over two byte streams, with at most 2^32 begins, every callback by a reply tells what the other end's callback for that very request ended with |
| RequestReply.RequestIsAnswered | XmsgImTransInitiative.cpp:39-75 | a request that the other end takes and ends without failure is called back with that answer, by a run over the two byte streams |
| RequestReply.AnswerPossible | tcp/XmsgImTcpChannel.cpp:31-63 | for every request and every answer there are a codec, registries and ends with which it is so answered |
| Reconnect.MoveGuarded | tcp/XmsgImTcpH2N.cpp:38-102 | every single access of a caller, an svc thread or a future keeps the guard's invariant |
| Reconnect.OneAttemptAtATime | tcp/XmsgImTcpH2N.cpp:38-102 | over every interleaving at most one thread is between its winning exchange and its release, `trying` says exactly that, the channel is queued for h2ns once, by the first svc, and every attempt but the first waits |
| Reconnect.EstablishedStartsNothing | tcp/XmsgImTcpH2N.cpp:40-44 | while the channel is established and stays so, connect() starts no thread, over every interleaving |
| Reconnect.EndsByConnecting | tcp/XmsgImTcpH2N.cpp:67-100 | the threads that have left their loop are as many as have connected: none gives up |
| Reconnect.EstablishedByConnect | tcp/XmsgImTcpH2N.cpp:76-86 | an established channel uses a descriptor that some thread connected |
| Reconnect.DoubleExact | tcp/XmsgImTcpH2N.cpp:38-102 | a connection can still be set up over an established one if and only if two links are up, queued or being attempted |
| Reconnect.SecondConnection | tcp/XmsgImTcpH2N.cpp:40-49 | winning the exchange can lead there if and only if a connection is up or queued at that moment |
| Reconnect.DoubleHappens | tcp/XmsgImTcpH2N.cpp:38-102 | an interleaving of two callers in which it does |

## Left out

- Sockets, epoll, address parsing, sleeping, buffers of the channel base classes: foreign I/O. The base class is taken to present the unconsumed bytes again, followed by the new ones.
- `XscProtoPdu::decode` and its constants, protobuf parsing: other libraries. Laws on `decode` stand for the first; parsing is a function parameter.
- The content of the handshake request and the SHA-1, base64 and text of the 101 answer (`ws/XmsgImWebSocketChannel.cpp:81-121`): a function parameter.
- `http/` and `udp/` channels: a straight run of early returns, and one datagram with one decode.
- The sending of one-way messages, `forwardUnidirection` and the variants of `sendEnd` without a transaction: one PDU each, with nothing to keep.
- Logging, tracing, statistics, `toString`, the casts between channel types. Start and finish log events are counters and lists.
- Reference counting, destructors, data races on plain fields other than those named in the source as shared.
- Futures: a begin is its future when it runs. A begin queued for later is a later Start step.
- Callbacks: what a callback begins, and whether it binds a user, is a function of the transaction or message it is called for. What else it does to the channel is further steps of the run.
- The choice of the timeout per actor and protocol (`XmsgImChannel.cpp:656-692`): the timeout is a parameter.
- Interceptors are functions of the PDU; what they do to their own state is not modelled.
- `gts` and `ets` come from the wall clock and `dida` from the server's clock; the model has one clock. One second is 1000 of its units.
- The WebSocket channel's `dida` and `clean` are empty (`ws/XmsgImWebSocketChannel.cpp:39-55`), so the sweep, clean and timeout results are for TCP and RUDP.
- A second registering thread: `reg` and `setItcp` write the master's map without a lock, so the model has one such thread at a time.
- The reconnect guard, and the waiting half of the replication, run across threads and are state machines on values; the aliasing of the shared objects is not modelled there.
- Setting up a connection (`tcp/XmsgImTcpH2N.cpp:85-97`) beyond `est` and `cfd`: buffers of the base class, among them the waiting bytes, which are dropped.
- RoundTrip: excludes framings in which two consecutive frames end inside PDUs, because the code's erase is wrong there; `CacheExact` gives the exact condition and `MendedRoundTrip` the unconditional statement for the intended decoder.
- BeginsOverWebSocket: the same two exclusions as RoundTrip.
- EndToEnd.BeginsDelivered: states the case in which the other end takes every message, the case in which nothing may be missing; `RequestReply.BeginsServed` covers everything else.
- EndToEnd.BeginsOverTcp: the same case as BeginsDelivered.
- Codec.LengthPrefixedIsLawful: carries byte strings only; `Codec.BookIsLawful` carries PDUs of any kind.
- RequestReply: one end begins and the other serves; what the serving end begins in turn counts among the other PDUs on the wire. Losing a connection and its unread bytes is covered on PDUs (`Correlation`), not on bytes.
