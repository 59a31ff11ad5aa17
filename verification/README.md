# RPCinGo, modelled and proved in Dafny

RPCinGo is a Go RPC framework. This project models its stateful cores and proves what they promise over every input,
every run or every interleaving:

- **The multiplexed connection** (`Messages`, `RpcClient`, `RpcServer`, `RpcLink`, `RpcAnswers`, `RpcCompletion`,
  `RpcLeftovers`, `RpcReplies`). One client multiplexes concurrent calls over one TCP connection; one server goroutine
  reads, one goroutine per request handles, one writes. Client and server are step systems cut at the mutexes,
  channels and atomic counters; `RpcLink` composes them over two in-order streams, `RpcAnswers` counts the responses a
  request gets, `RpcCompletion` shows that everything begun comes to an end, `RpcLeftovers` what is then still in the
  client's table, and `RpcReplies` which outcome each call returns. The sections between two cuts are also given as
  class methods.
- **Binary framing** (`Framing`). The 20-byte big-endian header, compression, and reading and writing on byte streams.
- **The connection pool** (`PoolSteps`, `PoolOvershoot`, `PoolBlocking`, `PoolRuns`, `ConnectionPool`). Any number of
  goroutines that get and put or only put, the cleanup routine and the health-check routine as atomic steps; the exact
  overshoot of the size limit and when a sweep can block; and the methods themselves, run one at a time, each proved
  to be a run of the step system.
- **The circuit breaker** (`SlidingWindow`, `CircuitBreaker`, `BreakerRecovery`). The bucketed ring against an
  unbounded event log, with the exact range of ages it counts; the three states over whole runs, and when a tripped
  breaker can close again.
- **The rate limiters** (`TokenBucket`, `SlidingLimiter`).
- **The cached load balancers** (`Instances`, `ConsistentHash`, `OverlappingPicks`, `WeightedRoundRobin`). A pick on
  the hash ring has two critical sections: `ConsistentHash` is about picks that do not overlap, `OverlappingPicks`
  about every interleaving of the two.

`Wrappers` holds the one `Option` type and `Arithmetic` the shared arithmetic facts. `dafny verify dfyconfig.toml`
checks the whole project.

## Conventions and assumptions

- Time is an explicit integer of nanoseconds passed to each operation. A property that needs a clock that does not run
  backwards says so; the others hold for any times.
- A step system has `Can` (is the step possible now), `Do` (the state after it) and `After` (the state after a
  sequence of possible steps). "Reachable" means reached by some sequence of steps.
- A client is dialled once and draws fewer than 2^64 IDs; each call in flight owns its `Request`. The counter itself
  is modelled modulo 2^64.
- The handler echoes the request's ID, as `HandleRequest` in `pkg/server/server.go` does. Body codecs and gzip are
  arbitrary functions that satisfy a stated round trip; the ring's hash is an arbitrary function to the natural
  numbers.
- Frames that a peer writes arrive in order or not at all. A failed write leaves its frame incomplete.
- A borrowed pool connection is put back at most once, and the pool's `Close` does not overlap other pool operations.
- Instance lists handed to a balancer do not change afterwards.
- 64-bit arithmetic on times and counters stays in range, except where wrap-around is modelled: the request ID counter
  and the `uint32` body length.

## Where the code falls short of its documentation or of a natural reading

The model follows the code. Each of these is a theorem that gives the exact condition.

- `MaxSize` is not a bound under concurrency: the size check and the increment are separate critical sections. Over
  all runs the greatest `currentSize` is `MaxSize` plus the number of getters, less one unless the cleanup routine
  runs and `MinSize` equals `MaxSize` (`PeakIsTheMaximum`). So `MaxSize` holds over every run exactly when there is no
  getter, or a single one and either no cleanup or `MinSize < MaxSize` (`WithinMaxSizeIff`). Goroutines that only put
  do not count.
- Cleanup and the health check can block putting a connection back into the channel. With either of them around, none
  of these sends ever blocks exactly when `MaxSize` holds over every run (`NoSendBlocksIff`).
- The breaker's window is not `size * bucketTime` long: each advance drops the fraction of a bucket time. An event of
  a given age is counted in some run exactly when the age is at most `(2*size-1)*bucketTime - size`, and missed in
  some run exactly when it is above `(size-1)*bucketTime` (`AgesCountedAndMissed`). The nominal length is never
  exceeded exactly when there is one bucket or the bucket time is one clock unit, and never fallen short of exactly in
  the latter case (`NominalLengthIff`).
- `MaxRequests` does not bound the calls a half-open episode has running. The call that makes the transition is not
  counted, and each call from before the episode that reports during it gives a slot away. With k such strays the
  excess is at most 1 + k, and it is 1 + k in some run exactly when the failure threshold is at most 1, k successes do
  not close the breaker yet, and either k is 0 or `MaxRequests` is positive (`ExcessIff`). Without strays it is at
  most 1 (`NoStraysNoExcess`).
- A half-open breaker can be unable to close by its own calls. A tripped breaker can close exactly when the failure
  threshold is at most 1 (`RecoversIff`); without outcomes of calls from before the episode, exactly when also
  `MaxRequests` is positive or one success is enough (`RecoversUnaidedIff`): with `MaxRequests` 0 the probe is the
  only call an episode ever lets out.
- A token bucket can be faster than its rate, because the nanoseconds per token are rounded down. A new limiter keeps
  its rate over all runs exactly when its capacity is 0, or the rate divides 10^9, or the capacity is at most what the
  rate brings in one nanosecond (`NominalRateIff`).
- The consistent-hash cache check takes some other list for the cached one exactly when the cached list has duplicate
  IDs (`ReuseSoundIffDistinct`). When it reuses the ring it answers with the cached instance: if no other pick
  overlaps, the answer is always one of the given instances exactly when the ring is rebuilt or every cached instance
  that is the last of its ID is given unchanged (`ConsistentHash.AnswersFromGivenIff`, with the input in
  `StaleAnswer`).
- A consistent-hash pick can be overtaken between its two critical sections and answer with an instance of another
  pick's list (`OvertakenPick`). Over every interleaving it answers from its own list exactly when every list whose
  ring it may find has all its owners in that list (`AlwaysFromGivenIff`); for duplicate-free lists `MayFindIff` says
  which lists these are, and the answered ID never depends on the overlap, whatever the collision-free hash and the
  key, exactly when all the lists have the same set of IDs (`OverlapIsInvisibleIff`).
- The weighted round-robin cache check ignores everything but ID and weight: the answer is always one of the given
  instances exactly when the schedule is rebuilt or every cached instance is given unchanged
  (`WeightedRoundRobin.AnswersFromGivenIff`, with the input in its `StaleAnswer`).
- A frame whose body on the wire, after compression, has 2^32 bytes or more is silently given a truncated length;
  exactly these frames do not come back as sent (`RoundTripIffFits`).
- A call that registers after `closeWithError` has drained the table can leave its entry there for good
  (`LateCallIsLeft`). Once closing is under way, some schedule ends with an entry left exactly when some call has not
  registered yet while the connection still takes writes, or registered after the drain and can still be told of the
  closing before its entry is removed (`EntriesRemainIff`). Each call whose entry is left was told that the connection
  is closed (`LeftoversWereToldClosed`).
- A request above the size limit is refused and then handled anyway. A request has at most one response in its name,
  two when it is oversize (`RepliesPerRequest`), and exactly the oversize ones can get two
  (`AnsweredTwiceIffOversize`). The caller always sees the refusal (`OversizeCallersSeeTheRefusal`).

## Model

| member | source | states |
|---|---|---|
| RpcLink.RepliesReachTheirCaller | pkg/transport/tcp/client.go:126-158 | in every interleaving, a call that returns a response returns the first one the server ever enqueued for its ID, computed from its own request, whatever duplicates follow |
| RpcReplies.DoneReturnsTheReply | pkg/transport/tcp/client.go:145-150 | over every run a call that leaves through done returns the first response that ever arrived for its ID, unless the drain had taken its entry; then it returns the closed-connection error |
| RpcReplies.ReplyComesBack | pkg/transport/tcp/client.go:126-150 | for every request there is a run from a fresh connection in which its call returns the refusal if it is oversize, and otherwise what its handler answered to that very request |
| RpcReplies.VerdictIff | pkg/transport/tcp/server.go:237-287 | exactly which verdicts a call can return: the refusal when its request is oversize, an answer or an error of the handler when it is not |
| RpcReplies.OutcomeTellsTheExit | pkg/transport/tcp/client.go:134-157 | over every run the outcome of a call tells which exit it took: failed write, cancelled context, closed done channel with or without the drain, or closed connection |
| RpcReplies.FailedIffDrained | pkg/transport/tcp/client.go:252-258 | over every run a call is failed exactly when the drain has taken its entry |
| RpcReplies.EveryRequestIsAnswered | pkg/transport/tcp/server.go:231-287 | in every reachable state of a connection that is not cancelled, a request nobody works on any more has had exactly one response, two when oversize |
| RpcReplies.StepLosesNothing | pkg/transport/tcp/server.go:231-287 | while the context lives, every step keeps responses given plus responses owed at exactly the quota |
| RpcReplies.StepKeepsRefusedOnly | pkg/transport/tcp/server.go:237-243 | every step keeps that only oversize requests are refused |
| RpcLink.NoCallerIsStranded | pkg/transport/tcp/client.go:130-157 | in every reachable state a waiting call is listed, held by the read loop or complete; when the read loop has ended, the close exit of its select is open |
| RpcCompletion.EveryWaiterGetsOut | pkg/transport/tcp/client.go:144-260 | from every reachable state in which closeWithError has begun or the read loop is ending, every schedule of client, server and network without new calls is bounded and can only stop with the drain over and every call returned |
| RpcLeftovers.LeftoversWereToldClosed | pkg/transport/tcp/client.go:145-158 | in every reachable state in which the drain is over and every call has returned, each entry still in the table is that of a call that returned the closed-connection error |
| RpcLeftovers.EntriesAreLate | pkg/transport/tcp/client.go:126-158 | from the emptied table on, whatever happens, new calls included, every entry is that of a call that had not registered by then |
| RpcLeftovers.EntriesRemainIff | pkg/transport/tcp/client.go:126-260 | from every reachable state with closing under way, some schedule without new calls ends with every call returned and an entry left exactly when some call has yet to register while writes still go through, or registered after the drain and can still miss its removal |
| RpcLeftovers.LateCallIsLeft | pkg/transport/tcp/client.go:126-158 | the run of one call that registers after the drain and leaves its entry, for every length of its request |
| RpcCompletion.WithoutNewCallsEverythingEnds | pkg/transport/tcp/client.go:126-260 | from every reachable state every schedule without new calls is bounded |
| RpcCompletion.SchedulesAreBounded | pkg/transport/tcp/client.go:126-260 | a schedule is no longer than the work left before it less the work left after it, and closing once under way stays so |
| RpcCompletion.LinkShrinks | pkg/transport/tcp/client.go:126-260 | every step but drawing an ID lowers the work left at both ends and on the wire |
| RpcCompletion.ClosingNeverSticks | pkg/transport/tcp/client.go:244-260 | while closing is under way and anything is left, the client has a step that waits for nobody else |
| RpcLink.NothingPanics | pkg/transport/tcp/client.go:229-259 | no reachable state has closed a done channel twice, sent on a closed writeCh or closed it twice, and in none is anyone about to |
| RpcLink.IdsNeverCollide | pkg/transport/tcp/client.go:121-132 | IDs are pairwise distinct and registering never overwrites a pending entry |
| RpcLink.OversizeCallersSeeTheRefusal | pkg/transport/tcp/server.go:237-287 | whatever further reply an oversize request gets, the caller only ever gets the refusal |
| RpcAnswers.RepliesPerRequest | pkg/transport/tcp/server.go:231-287 | in every reachable state a received request has at most one response in its name, two when oversize |
| RpcAnswers.AnsweredTwiceIffOversize | pkg/transport/tcp/server.go:237-287 | some run answers a request twice exactly when it is oversize |
| RpcAnswers.OversizeIsAnsweredTwice | pkg/transport/tcp/server.go:237-287 | the run from a fresh connection in which an oversize request of any call gets its refusal and its answer |
| RpcAnswers.StepKeepsQuota | pkg/transport/tcp/server.go:231-287 | every step keeps responses given plus responses owed within the quota of one or two |
| RpcLink.WireIsAPrefix | pkg/transport/tcp/server.go:199-213 | the wire holds whole frames of a prefix of the enqueued responses and at most one torn frame behind them; the client has taken a prefix of those |
| RpcLink.BytesCarryTheFrames | pkg/transport/tcp/server.go:199-213 | whatever part of the frame being written has gone out, the bytes decode to exactly the frames on the wire |
| RpcLink.ShutdownCompletes | pkg/transport/tcp/server.go:290-294 | from every reachable state in which the reader has left its loop, every schedule is bounded and can only stop with handleConnection returned |
| RpcLink.BlockedSenderIsServed | pkg/transport/tcp/server.go:237-286 | in every reachable state whoever faces a full writeCh has a live writer or a cancelled context |
| RpcLink.Provenance | pkg/transport/tcp/client.go:220-242 | a returned response is on the server's wire, is the first enqueued for its ID, and stems from a received frame of that caller |
| RpcLink.ReachableIsSound | pkg/transport/tcp/client.go:126-260 | the joint invariant of client, server and both streams holds in every reachable state |
| RpcClient.StepKeepsInv | pkg/transport/tcp/client.go:126-260 | every atomic step of senders, read loop and closer keeps the client invariant |
| RpcClient.StepKeepsPending | pkg/transport/tcp/client.go:130-142 | every step keeps the table sound: each entry names its own incomplete call, and nothing is listed while the read loop holds it |
| RpcClient.StepKeepsCall | pkg/transport/tcp/client.go:144-157 | every step keeps each call sound: not returned means complete or still expected; a body is there exactly when complete without failure, and carries the call's ID |
| RpcClient.StepKeepsOutbound | pkg/transport/tcp/client.go:134-143 | every step keeps the written frames at one per ID, each for a call past its registration |
| RpcClient.StepKeepsDeliversFirst | pkg/transport/tcp/client.go:223-241 | every step keeps that a call's body is the first frame with its ID and that no frame for a listed call has gone by |
| RpcClient.IdsAreDistinct | pkg/transport/tcp/client.go:121-132 | in every state of the invariant IDs are distinct and a drawn ID is not in the table |
| RpcClient.IdsRepeatIff | pkg/transport/tcp/client.go:121-128 | over every run of any length two calls have the same ID exactly when a multiple of 2^64 lies between them |
| RpcClient.DrainHoldsTheTable | pkg/transport/tcp/client.go:252-258 | while the drain holds pendingMu only the drain changes the table |
| RpcClient.DrainFailsTheListed | pkg/transport/tcp/client.go:252-258 | whatever senders and read loop do meanwhile, when the drain is over every call listed when it began has failed |
| RpcClient.MuxClient.Dial | pkg/transport/tcp/client.go:68-119 | a dialled client starts in the invariant |
| RpcClient.MuxClient.DrawId | pkg/transport/tcp/client.go:121-128 | takes the Draw step; the ID is one more than the number of earlier calls |
| RpcClient.MuxClient.RegisterCall | pkg/transport/tcp/client.go:126-132 | adds one entry under a key that was free, keeps the invariant |
| RpcClient.MuxClient.WriteFrame | pkg/transport/tcp/client.go:134-143 | success puts one frame with the call's ID on the wire; failure removes the entry and returns the write error; the link is down afterwards exactly when it was or this write broke it |
| RpcClient.MuxClient.GiveUp | pkg/transport/tcp/client.go:151-155 | a cancelled call removes its own entry and nothing else |
| RpcClient.MuxClient.Await | pkg/transport/tcp/client.go:145-158 | the done exit returns the body stored for the call, or the closed-connection error exactly when the call was failed; the other two return their own errors, and a cancelled call leaves no entry |
| RpcClient.MuxClient.TakeEntry | pkg/transport/tcp/client.go:229-234 | the frame's entry leaves the table for the read loop's hands; a frame without an entry is dropped |
| RpcClient.MuxClient.Deliver | pkg/transport/tcp/client.go:236-240 | stores the frame in the call it was taken for, completes it, changes no other call |
| RpcClient.MuxClient.FailEntry | pkg/transport/tcp/client.go:253-257 | one round of the drain fails one call and removes its entry |
| RpcClient.MuxClient.FailAllPending | pkg/transport/tcp/client.go:252-258 | the drain fails exactly the calls that were listed and empties the table, in whatever order |
| RpcClient.MuxClient.CloseWithError | pkg/transport/tcp/client.go:244-260 | the first caller fails every pending call; later callers change nothing |
| RpcClient.MuxClient.BeginClosing | pkg/transport/tcp/client.go:244-252 | the client is no longer connected and the drain has the table |
| RpcClient.MuxClient.EndReadLoop | pkg/transport/tcp/client.go:220-228 | a failed read ends the loop after the drain, which changes nothing if it is already over; frames already sent and taken stay as they are |
| RpcServer.StepKeepsShutdownOrder | pkg/transport/tcp/server.go:194-294 | every step keeps the shutdown order: writeCh is closed only after the last handler, nothing panics, enqueued = wire + in the writer + queued |
| RpcServer.StepKeepsEcho | pkg/transport/tcp/server.go:231-287 | every step keeps that each response echoes the ID of the request it was computed from |
| RpcServer.StepKeepsRefusals | pkg/transport/tcp/server.go:237-287 | every step keeps that the first response enqueued for an oversize request is its refusal |
| RpcServer.ShutdownShrinks | pkg/transport/tcp/server.go:290-294 | after the reader has left, every step lowers a natural-number measure |
| RpcServer.ShutdownNeverSticks | pkg/transport/tcp/server.go:290-294 | after the reader has left, some step is possible until handleConnection has returned |
| RpcServer.ShutdownCompletes | pkg/transport/tcp/server.go:290-294 | every schedule after the reader has left is bounded and ends with the return |
| RpcServer.BlockedSenderIsServed | pkg/transport/tcp/server.go:237-244 | whoever faces a full writeCh has a live writer or a cancelled context |
| RpcServer.ChannelHolds | pkg/transport/tcp/server.go:194-194 | some run leaves n responses waiting for the writer exactly when n is at most 64 |
| RpcServer.Connection.constructor | pkg/transport/tcp/server.go:194-219 | a new connection starts in the step system's first state |
| RpcServer.Connection.ReadFrame | pkg/transport/tcp/server.go:231-237 | the frame joins those received and goes to the refusal exactly when oversize; the connection's invariants are kept |
| RpcServer.Connection.LeaveLoop | pkg/transport/tcp/server.go:221-234 | the reader leaves whatever the handlers are doing, and the invariants are kept |
| RpcServer.Connection.QuitRefusal | pkg/transport/tcp/server.go:238-243 | on a cancelled connection the refusal is given up and no handler starts |
| RpcServer.Connection.SendRefusal | pkg/transport/tcp/server.go:238-243 | the refusal under the request's ID joins the channel within its capacity, and the request is still handed to a handler; on an orderly connection the channel is open |
| RpcServer.Connection.LaunchHandler | pkg/transport/tcp/server.go:259-260 | one new handler with a number of its own holds the frame, all others are untouched, the reader reads on |
| RpcServer.Connection.FinishHandler | pkg/transport/tcp/server.go:277-281 | exactly one handler turns to replying, about its own request and, result or error, under its ID |
| RpcServer.Connection.SendAnswer | pkg/transport/tcp/server.go:282-284 | the response moves from its handler to the end of the channel, within its capacity; on an orderly connection the channel is open |
| RpcServer.Connection.DropAnswer | pkg/transport/tcp/server.go:282-286 | on a cancelled connection the handler ends without its answer |
| RpcServer.Connection.SealQueue | pkg/transport/tcp/server.go:290-293 | with no handler left the channel is closed, without a panic, and the invariants are kept |
| RpcServer.Connection.EndWriter | pkg/transport/tcp/server.go:201-213 | the writer ends at an empty closed channel with everything enqueued on the wire |
| RpcServer.Connection.ReturnFromConnection | pkg/transport/tcp/server.go:290-294 | the connection returns cancelled, with no handler left |
| RpcServer.Connection.StartWrite | pkg/transport/tcp/server.go:201-201 | the oldest response is with the writer, ahead of the rest of the channel and behind the wire |
| RpcServer.Connection.EndWrite | pkg/transport/tcp/server.go:206-211 | the response is on the wire, which stays a prefix of what was enqueued |
| RpcServer.Connection.FailWrite | pkg/transport/tcp/server.go:206-210 | the frame is torn behind the wire, the context is cancelled, nobody writes any more |
| RpcServer.Connection.WriteNext | pkg/transport/tcp/server.go:201-212 | one round moves one response to the wire, or tears it and cancels the connection |
| RpcServer.Connection.WriteOut | pkg/transport/tcp/server.go:201-212 | the loop writes the queue in order up to the first failure and nothing after it |
| Framing.HeaderRoundTrip | pkg/protocol/header.go:121-165 | decoding inverts encoding for every header of this magic and version and names the error for every other |
| Framing.HeaderIsCanonical | pkg/protocol/header.go:121-165 | encoding inverts decoding: 20 bytes that decode are the encoding of what they decode to |
| Framing.FillHeader | pkg/protocol/header.go:121-137 | filling the buffer field by field yields the specified 20 bytes |
| Framing.PutBigEndian | pkg/protocol/header.go:124-134 | writes exactly the k big-endian bytes and leaves the rest of the buffer alone |
| Framing.BigEndianRoundTrip | pkg/protocol/header.go:124-162 | reading back a k-byte big-endian number gives the number, for every number that fits |
| Framing.BigEndianOrder | pkg/protocol/header.go:124-134 | byte i of the k bytes is n / 256^(k-1-i) modulo 256: the most significant comes first |
| Framing.BigEndianTruncates | pkg/transport/tcp/codec.go:51-56 | k bytes hold a number up to multiples of 256^k |
| Framing.FrameRoundTrip | pkg/transport/tcp/codec.go:40-123 | a frame at the front of any stream is read back whole with the rest untouched, for every codec and compression byte |
| Framing.RoundTripIffFits | pkg/transport/tcp/codec.go:51-56 | for every compression byte a frame is decoded to its header and its data with nothing left over exactly when its body on the wire is shorter than 2^32 bytes |
| Framing.FrameLayout | pkg/transport/tcp/codec.go:40-70 | every frame byte by byte: CA FE, version 1, type, codec, compression, two zeros, ID and length most significant byte first, then the body in protobuf under codec 1 and JSON under any other, compressed only under 1 |
| Framing.DecodesIff | pkg/transport/tcp/codec.go:101-123 | exactly which streams decode, and to what |
| Framing.DecodeErrors | pkg/transport/tcp/codec.go:101-123 | which error every other stream meets |
| Framing.PrefixFails | pkg/transport/tcp/codec.go:101-115 | every proper prefix of a frame is an error, and which |
| Framing.TruncatedStream | pkg/transport/tcp/codec.go:101-123 | a stream cut anywhere yields exactly the whole frames before the cut, then the error of the cut |
| Framing.StreamRoundTrip | pkg/transport/tcp/codec.go:40-123 | reading the concatenated encodings of any messages yields exactly their headers and bodies |
| Framing.PrefixIsSeen | pkg/transport/tcp/codec.go:101-123 | a reader of any prefix of a stream sees a prefix of the messages |
| Framing.BodyRoundTrip | pkg/transport/tcp/codec.go:142-229 | requests and responses arrive as sent with the ID in the header, for every codec and compression byte and whatever the receiver's configuration; the other message type is refused |
| Framing.ReadBodyCases | pkg/transport/tcp/codec.go:194-229 | for every stream, which of wrong type, undecodable body and success a read ends in, and with what |
| Framing.Reader.ReadFull | pkg/transport/tcp/codec.go:102-115 | takes n bytes off the front or fails at the end of the stream |
| Framing.Reader.DecodeFromReader | pkg/transport/tcp/codec.go:101-123 | reads what the specification decodes and leaves the rest |
| Framing.Writer.WriteFull | pkg/transport/tcp/client.go:262-271 | partial writes add up to the whole, or to a prefix and an error, which is there exactly when a write failed |
| Framing.Writer.WriteOut | pkg/transport/tcp/server.go:201-212 | writing frame after frame until an error leaves a prefix of the whole stream, all of it exactly when no write failed |
| PoolSteps.PoolConserves | pkg/pool/pool.go:593-874 | whenever nobody is inside the pool, createCount - closeCount = idle + lent, and equals currentSize while open, over every run |
| PoolSteps.NoConnectionIsShared | pkg/pool/pool.go:627-809 | in every reachable state no connection is idle and lent, lent twice, or in two hands |
| PoolSteps.OvershootIsBounded | pkg/pool/pool.go:658-714 | currentSize plus creations in progress never exceeds MaxSize plus the number of workers |
| PoolSteps.SerialNeverOvershoots | pkg/pool/pool.go:658-714 | in a run in which operations do not overlap currentSize never exceeds MaxSize, whatever the configuration |
| PoolOvershoot.WithinMaxSizeIff | pkg/pool/pool.go:658-714 | currentSize stays within MaxSize over every run exactly when there is no getter, or a single one and no cleanup or MinSize below MaxSize; goroutines that only put may be there in any number |
| PoolOvershoot.PeakIsTheMaximum | pkg/pool/pool.go:658-808 | with a getter around the greatest currentSize of any run is MaxSize plus the getters, less one unless cleanup runs and MinSize equals MaxSize |
| PoolOvershoot.NoRunExceedsThePeak | pkg/pool/pool.go:658-808 | no run takes currentSize plus creations in progress above that |
| PoolOvershoot.SomeRunReachesThePeak | pkg/pool/pool.go:658-808 | some run from every opened pool reaches it |
| PoolOvershoot.WithoutGetters | pkg/pool/pool.go:795-808 | without getters currentSize stays within MaxSize |
| PoolBlocking.NoSendBlocksIff | pkg/pool/pool.go:781-793 | with cleanup or health check around, none of their put-back sends ever blocks exactly when currentSize stays within MaxSize over every run |
| PoolBlocking.BlockedMeansOvershoot | pkg/pool/pool.go:781-793 | a put-back send that finds the channel full means currentSize is above MaxSize |
| PoolBlocking.SomeSendBlocks | pkg/pool/pool.go:838-841 | whenever MaxSize can be overshot, some run blocks a put-back send of any given sweeper |
| PoolSteps.TopUpNeverBlocks | pkg/pool/pool.go:795-808 | the send cleanup makes while holding the mutex always finds room in the channel |
| PoolSteps.TopUpHasRoom | pkg/pool/pool.go:795-808 | during a top-up fewer than MinSize connections are idle |
| PoolSteps.TopUpIsExclusive | pkg/pool/pool.go:795-808 | while cleanup tops up nobody else changes currentSize or passes the gate |
| PoolSteps.ChannelAndTopUp | pkg/pool/pool.go:795-808 | in every reachable state the channel holds at most MaxSize, and a finished top-up has brought currentSize to exactly MinSize |
| PoolSteps.ReachableIsSound | pkg/pool/pool.go:549-874 | the pool invariant holds in every reachable state |
| PoolSteps.StepKeepsExclusive | pkg/pool/pool.go:627-850 | every step keeps each connection in one place |
| PoolSteps.StepKeepsBalance | pkg/pool/pool.go:627-874 | every step keeps both counting equations, with what each actor holds or owes at its point in the code |
| PoolSteps.StepKeepsBound | pkg/pool/pool.go:658-808 | every step keeps the overshoot bound |
| PoolSteps.StepKeepsRoles | pkg/pool/pool.go:767-809 | every step keeps currentSize plus what is left to create at MinSize during a top-up, the top-up with the cleanup routine, and the channel within MaxSize |
| PoolRuns.Accounts | pkg/pool/pool.go:593-874 | in every reachable pool in which one operation is in progress, sizes and counters are idle plus lent plus that operation's share, and no connection is twice idle, lent or held |
| ConnectionPool.KeptIsPart | pkg/pool/pool.go:781-793 | a sweep keeps exactly the idle connections that pass, without duplicates |
| ConnectionPool.BoundedPool.constructor | pkg/pool/pool.go:587-609 | pre-creates MinSize connections or as many as the factory delivers; the step system can start from here |
| ConnectionPool.BoundedPool.CreateNew | pkg/pool/pool.go:658-714 | a run of the step system: below the limit it creates; a full pool lends the oldest idle connection if it passes, else discards it and creates; with nothing idle it fails |
| ConnectionPool.BoundedPool.TakeIdle | pkg/pool/pool.go:637-639 | the oldest idle connection moves to the caller's hands, in one step |
| ConnectionPool.BoundedPool.LendOut | pkg/pool/pool.go:639-641 | it moves from the hands to the loans |
| ConnectionPool.BoundedPool.ThrowOut | pkg/pool/pool.go:643-648 | it is closed and counted out of both counters, in three steps, and the actor goes on where the code does |
| ConnectionPool.BoundedPool.MakeNew | pkg/pool/pool.go:701-712 | a connection nobody had is made, counted and lent |
| ConnectionPool.BoundedPool.Get | pkg/pool/pool.go:627-656 | a run of the step system that lends the oldest idle connection if it passes, else a new one; with nothing idle a new one below the limit and none at it; a closed pool lends nothing; exactly the connections made are counted |
| ConnectionPool.BoundedPool.Put | pkg/pool/pool.go:718-754 | a run of the step system that ends the loan; the connection is idle again exactly when the pool is open and it passes |
| ConnectionPool.BoundedPool.PutLate | pkg/pool/pool.go:726-731 | on a closed pool the loan ends and the connection is closed, counted once |
| ConnectionPool.BoundedPool.Offer | pkg/pool/pool.go:744-745 | the connection moves from the hands to the end of the channel, in one step |
| ConnectionPool.BoundedPool.TakeBack | pkg/pool/pool.go:725-734 | the loan moves to the caller's hands |
| ConnectionPool.BoundedPool.DrainIdle | pkg/pool/pool.go:768-777 | the steps that empty the channel in order into the actor's hands |
| ConnectionPool.BoundedPool.PutBack | pkg/pool/pool.go:779-793 | the steps that put back what passes in order and count the rest out |
| ConnectionPool.BoundedPool.CheckOne | pkg/pool/pool.go:781-793 | one round puts the connection back at the end or counts it out, by the test alone |
| ConnectionPool.BoundedPool.SweepIdle | pkg/pool/pool.go:767-793 | a whole sweep keeps exactly what passes, as steps of the acting routine |
| ConnectionPool.BoundedPool.SendBack | pkg/pool/pool.go:789-792 | a connection that passes moves from the hands to the end of the channel, which has room |
| ConnectionPool.BoundedPool.AddIdle | pkg/pool/pool.go:799-805 | cleanup makes one connection, idle from the start, and the channel has room |
| ConnectionPool.BoundedPool.AddNext | pkg/pool/pool.go:797-806 | one round of the top-up adds the next connection at the end |
| ConnectionPool.BoundedPool.TopUpIdle | pkg/pool/pool.go:795-808 | the top-up adds what is missing to MinSize or as many as the factory delivers |
| ConnectionPool.BoundedPool.HealthCheck | pkg/pool/pool.go:825-850 | a run of the step system after which exactly the healthy idle connections stay, in order |
| ConnectionPool.BoundedPool.Cleanup | pkg/pool/pool.go:767-809 | a run of the step system after which exactly the unexpired stay, in order, followed by as many new ones as are missing to MinSize or as the factory delivers, whichever is fewer |
| ConnectionPool.BoundedPool.Close | pkg/pool/pool.go:853-874 | a run of the step system that closes everything idle once and leaves currentSize as it was; loans stay accounted for |
| SlidingWindow.RingRefinesLog | pkg/circuitbreaker/window.go:71-129 | after any records and resets at any times, Stats counts exactly the logged events since the last reset whose bucket was advanced past fewer than size times; totals add up |
| SlidingWindow.WindowAgeBound | pkg/circuitbreaker/window.go:42-93 | right after a record everything of age at most (size-1)*bucketTime is counted and nothing older than (2*size-1)*bucketTime - size |
| SlidingWindow.AgesCountedAndMissed | pkg/circuitbreaker/window.go:42-93 | an age is counted in some timely run exactly when it is between 0 and (2*size-1)*bucketTime - size, and missed in some exactly when above (size-1)*bucketTime |
| SlidingWindow.NominalLengthIff | pkg/circuitbreaker/window.go:79-92 | nothing of age size*bucketTime or more is ever counted exactly when there is one bucket or the bucket time is 1; everything younger always is exactly in the latter case |
| SlidingWindow.RunRefines | pkg/circuitbreaker/window.go:42-129 | the ring refines the log after every run |
| SlidingWindow.AdvanceRefines | pkg/circuitbreaker/window.go:85-90 | advancing by clearing buckets forgets exactly what the log expires |
| SlidingWindow.TickRefines | pkg/circuitbreaker/window.go:71-93 | the clear-all branch, which resets the index, refines the same log as the advance loop |
| SlidingWindow.RecordRefines | pkg/circuitbreaker/window.go:42-69 | recording refines appending to the log |
| SlidingWindow.ResetRefines | pkg/circuitbreaker/window.go:122-129 | resetting refines emptying the log |
| SlidingWindow.StatsOfRefinement | pkg/circuitbreaker/window.go:96-108 | the sum over the ring counts the live events of the log, column by column |
| SlidingWindow.AgeOfLive | pkg/circuitbreaker/window.go:71-93 | the age bound for one event at its drift |
| SlidingWindow.RunStaysInStep | pkg/circuitbreaker/window.go:71-93 | a advances take more than a-1 bucket times and at most a*(2*bucketTime-1), over every run |
| SlidingWindow.Window.constructor | pkg/circuitbreaker/window.go:32-39 | a new window is the empty ring |
| SlidingWindow.Window.UpdateBuckets | pkg/circuitbreaker/window.go:71-93 | the in-place update computes the specified ring |
| SlidingWindow.Window.RecordOutcome | pkg/circuitbreaker/window.go:42-69 | updates, then counts the outcome in the current bucket |
| SlidingWindow.Window.Stats | pkg/circuitbreaker/window.go:96-108 | the loop adds up all four columns |
| SlidingWindow.Window.ClearAll | pkg/circuitbreaker/window.go:126-128 | clears every bucket |
| SlidingWindow.Window.ResetBuckets | pkg/circuitbreaker/window.go:122-129 | empties the ring, leaves index and time |
| CircuitBreaker.NoAdmissionBeforeTimeout | pkg/circuitbreaker/breaker.go:104-133 | after a trip no call is admitted until strictly more than Timeout after the reported failure that tripped it |
| CircuitBreaker.TripStamp | pkg/circuitbreaker/breaker.go:152-172 | over every run only a reported failure trips the breaker, and the open time is when that failure was judged, closed or half-open |
| CircuitBreaker.EveryVerdict | pkg/circuitbreaker/breaker.go:104-133 | over every run and for every call: admitted when closed; when open, exactly if it comes more than Timeout after the failure that opened the breaker; when half-open, exactly if a slot is free |
| CircuitBreaker.OpenSince | pkg/circuitbreaker/breaker.go:104-172 | an open breaker has been open since one trip, whose time is its open time |
| CircuitBreaker.EpisodeSlots | pkg/circuitbreaker/breaker.go:104-141 | the in-flight counter is the slots in use counted over the events of the episode |
| CircuitBreaker.SinceTheTrip | pkg/circuitbreaker/breaker.go:104-184 | from a trip on the breaker stays open with the same open time until a call asks after the timeout |
| CircuitBreaker.OpenEndsOnlyByAdmission | pkg/circuitbreaker/breaker.go:135-184 | late outcomes change neither an open breaker's state nor its open time |
| CircuitBreaker.ClosingEpisode | pkg/circuitbreaker/breaker.go:174-184 | the breaker closes only after exactly max(1, SuccessThreshold) outcomes of one half-open episode, all successes |
| CircuitBreaker.EpisodeGoesOn | pkg/circuitbreaker/breaker.go:152-184 | over every run the outcome that makes max(1, SuccessThreshold) successes of an episode closes the breaker with all four window sums 0, a failure opens it, and nothing else ends the episode |
| BreakerRecovery.RecoversIff | pkg/circuitbreaker/breaker.go:104-184 | some orderly run trips and closes again exactly when the failure threshold is at most 1 |
| BreakerRecovery.RecoversUnaidedIff | pkg/circuitbreaker/breaker.go:104-184 | some orderly run closes by the successes of its own episode exactly when also MaxRequests is positive or one success is enough |
| CircuitBreaker.EpisodeOf | pkg/circuitbreaker/breaker.go:104-184 | a half-open breaker is in an episode begun by an admission, with only successes since, counted |
| CircuitBreaker.TripSpacing | pkg/circuitbreaker/breaker.go:143-181 | at a trip at least max(1, MinRequests) outcomes were reported since the last close, and the logged failures over total meet the threshold |
| CircuitBreaker.TripIff | pkg/circuitbreaker/breaker.go:152-172 | over every run a closed breaker opens exactly at a failure after which the logged outcomes in the window meet MinRequests and FailureThreshold, and otherwise stays closed |
| CircuitBreaker.WindowRefinesLog | pkg/circuitbreaker/breaker.go:135-184 | over every run the breaker's window refines the log of outcomes since it last closed |
| CircuitBreaker.ClosedSince | pkg/circuitbreaker/breaker.go:174-184 | a closed spell's log holds exactly the outcomes reported in it |
| CircuitBreaker.EvidenceIsRecent | pkg/circuitbreaker/breaker.go:65-73 | nothing older than 19 bucket times less 10 is judged and everything within 9 is |
| CircuitBreaker.HalfOpenBound | pkg/circuitbreaker/breaker.go:112-141 | halfOpenInFlight stays within MaxRequests; the episode's running calls exceed it by at most the probe and the strays; strays are among the episode's successes; with MaxRequests 0 the probe runs alone |
| CircuitBreaker.ExcessIff | pkg/circuitbreaker/breaker.go:104-184 | some orderly run with k strays has MaxRequests + 1 + k calls of the episode running exactly when the threshold is at most 1, k successes do not close the breaker, and k is 0 or MaxRequests is positive |
| CircuitBreaker.NoStraysNoExcess | pkg/circuitbreaker/breaker.go:112-141 | without strays at most MaxRequests + 1 calls of the episode run, over every run |
| CircuitBreaker.OnlyReachableThresholdsTrip | pkg/circuitbreaker/breaker.go:152-172 | a breaker that ever leaves the closed state has a failure threshold of at most 1 |
| CircuitBreaker.BurstAdmissions | pkg/circuitbreaker/breaker.go:112-131 | of any burst at an open breaker past its timeout, in which none reports, exactly MaxRequests + 1 calls get through |
| CircuitBreaker.CircuitBreaker.constructor | pkg/circuitbreaker/breaker.go:60-75 | a new breaker is closed over an empty window |
| CircuitBreaker.CircuitBreaker.BeforeCall | pkg/circuitbreaker/breaker.go:104-133 | the locked section returns the verdict and reaches the state that the run results above are about, for every state and time |
| CircuitBreaker.CircuitBreaker.AfterCall | pkg/circuitbreaker/breaker.go:135-150 | in-flight count, window and state after an outcome are those the run results are about; the window is updated before it is judged |
| CircuitBreaker.CircuitBreaker.HandleFailure | pkg/circuitbreaker/breaker.go:152-172 | trips on the window's real statistics exactly when they meet MinRequests and FailureThreshold, or at once when half-open; the open time of either trip is the time of the failure |
| CircuitBreaker.CircuitBreaker.HandleSuccess | pkg/circuitbreaker/breaker.go:174-184 | counts a half-open success, and exactly at the threshold closes with nothing left in the window |
| TokenBucket.RateBound | pkg/ratelimiter/token_bucket.go:40-90 | over every run tokens granted cost at most what was in the bucket plus the time passed; tokens and remainder stay in range |
| TokenBucket.GrantsIff | pkg/ratelimiter/token_bucket.go:40-56 | over every run a call for n > 0 is granted exactly when n is within the capacity and n tokens cost no more than the level before it plus the time passed |
| TokenBucket.BurstOfOnes | pkg/ratelimiter/token_bucket.go:40-56 | of any number of calls for one token at one instant exactly as many are granted as there are whole tokens |
| TokenBucket.RunIsMetering | pkg/ratelimiter/token_bucket.go:40-90 | over every run the bucket is a meter that the clock gives one token per tick, and its remainder is the time passed modulo the time of a token, full or not |
| TokenBucket.MeterGrants | pkg/ratelimiter/token_bucket.go:40-56 | over every run a call is granted exactly when that meter has the tokens |
| TokenBucket.RefilledTokens | pkg/ratelimiter/token_bucket.go:63-90 | a refill leaves the whole tokens that level and time are worth, up to the capacity |
| TokenBucket.RunLevel | pkg/ratelimiter/token_bucket.go:40-90 | granted plus left is at most start plus time, and exactly that when the bucket never fills up |
| TokenBucket.AllowLevel | pkg/ratelimiter/token_bucket.go:40-56 | the same for one call |
| TokenBucket.RefillLevel | pkg/ratelimiter/token_bucket.go:63-90 | a refill turns time into tokens and remainder without loss except at the cap |
| TokenBucket.RefillComposes | pkg/ratelimiter/token_bucket.go:63-90 | refilling in between and then at t is refilling once at t, for every rate |
| TokenBucket.DeniedCallsAreInvisible | pkg/ratelimiter/token_bucket.go:40-90 | denied calls change no later answer and no later bucket |
| TokenBucket.OneSleepSuffices | pkg/ratelimiter/token_bucket.go:93-132 | after one full sleep the tokens are there |
| TokenBucket.NominalRateIff | pkg/ratelimiter/token_bucket.go:63-90 | for every limiter with a rate of at least 1: over all its runs grants stay within capacity plus rate times time exactly when the capacity is 0, the rate divides 10^9, or capacity times 10^9 is at most the rate |
| TokenBucket.DividingRateIsKept | pkg/ratelimiter/token_bucket.go:63-90 | a dividing rate is kept over every run |
| TokenBucket.SmallBucketIsKept | pkg/ratelimiter/token_bucket.go:63-90 | so is a rate above 10^9 with a bucket worth no more than a nanosecond |
| TokenBucket.OtherRatesAreBroken | pkg/ratelimiter/token_bucket.go:63-90 | every other limiter breaks its rate in some run, with its own capacity |
| TokenBucket.Limiter.constructor | pkg/ratelimiter/token_bucket.go:25-32 | a new bucket is full |
| TokenBucket.Limiter.DoRefill | pkg/ratelimiter/token_bucket.go:63-90 | the in-place refill, with its early exit and its cap, is the refill the rate and composition results are about; a rate outside 1..10^9 fills the bucket and drops the remainder |
| TokenBucket.Limiter.AllowN | pkg/ratelimiter/token_bucket.go:40-56 | grants exactly when the refilled bucket has n tokens and spends them only then; a denied call keeps the refilled bucket; n <= 0 is granted and touches nothing |
| TokenBucket.Limiter.WaitN | pkg/ratelimiter/token_bucket.go:93-132 | uncontended, succeeds after at most one sleep for every n up to capacity, or ends with the context; too large a request is refused at once |
| SlidingLimiter.PruningIsExact | pkg/ratelimiter/sliding_window.go:37-62 | the pruned list decides every call as counting the full grant history in (now-window, now] |
| SlidingLimiter.NoWindowExceedsLimit | pkg/ratelimiter/sliding_window.go:37-62 | over every run no interval of length window holds more than limit grants |
| SlidingLimiter.IssuesTheReference | pkg/ratelimiter/sliding_window.go:37-62 | the limiter issues exactly the grants of a limiter that forgets nothing |
| SlidingLimiter.PrunedListAgrees | pkg/ratelimiter/sliding_window.go:43-51 | from the last call on the pruned list is as good as the history |
| SlidingLimiter.ReferenceKeepsLimit | pkg/ratelimiter/sliding_window.go:37-62 | the reference keeps the limit in every window |
| SlidingLimiter.Limiter.AllowN | pkg/ratelimiter/sliding_window.go:37-62 | the two loops prune the list to the open window and append n grants exactly when they fit the limit |
| SlidingLimiter.Limiter.constructor | pkg/ratelimiter/sliding_window.go:23-29 | a new limiter has no grants |
| ConsistentHash.MinimalDisruption | pkg/loadbalancer/consistent.go:65-123 | inserting an instance anywhere leaves a key's owner or moves it to the new instance, whatever the hash, collisions included |
| ConsistentHash.OrderDoesNotMatter | pkg/loadbalancer/consistent.go:65-123 | without collisions the owner's ID depends on the set of IDs and the key, not on the order |
| ConsistentHash.EarlierPicksDoNotMatter | pkg/loadbalancer/consistent.go:44-123 | after any history of picks from duplicate-free lists, one after the other, a pick answers with the ID a balancer without a history would, for collision-free hashes |
| ConsistentHash.ReuseAnswersTheSame | pkg/loadbalancer/consistent.go:44-104 | a reused ring answers with the ID a rebuilt one would |
| ConsistentHash.AnswersFromGivenIff | pkg/loadbalancer/consistent.go:44-104 | with no other pick between the two critical sections: for every hash and key the answer is one of the given instances exactly when the ring is rebuilt or every cached instance that is the last of its ID is given unchanged |
| ConsistentHash.StaleAnswer | pkg/loadbalancer/consistent.go:77-104 | with an address changed under the same ID the pick answers with the instance as it was |
| OverlappingPicks.AlwaysFromGivenIff | pkg/loadbalancer/consistent.go:44-75 | over every interleaving of any number of picks, for every hash and key: a pick always answers from its own list exactly when every list whose ring it can find at its lookup has all its last-of-ID instances in that list |
| OverlappingPicks.MayFindIff | pkg/loadbalancer/consistent.go:44-104 | for duplicate-free lists, exactly which rings a pick can find: the one cached before if the IDs are its own, and that of every pick if some pick replaces the one cached before |
| OverlappingPicks.AlwaysFromGivenIffListed | pkg/loadbalancer/consistent.go:44-104 | for duplicate-free lists, the condition of AlwaysFromGivenIff told from the lists alone |
| OverlappingPicks.OverlapIsInvisibleIff | pkg/loadbalancer/consistent.go:44-104 | for duplicate-free lists: in every interleaving, for every collision-free hash and key, a pick answers with the ID it would answer with alone, exactly when all overlapping lists have its set of IDs |
| OverlappingPicks.OvertakenPick | pkg/loadbalancer/consistent.go:49-74 | two picks from [a] and [b] on an empty balancer: the first can answer b, although alone it answers from its own list |
| OverlappingPicks.RunIsTraced | pkg/loadbalancer/consistent.go:44-75 | after every interleaving the cached list is the first one, reused by all who refreshed, or the list of one of the picks, and each answer came from a ring its pick may find |
| OverlappingPicks.AnswersFromSomething | pkg/loadbalancer/consistent.go:49-74 | no lookup ever meets an empty ring |
| ConsistentHash.OwnerIsLast | pkg/loadbalancer/consistent.go:106-123 | the owner of a key is always the last instance of its ID in the list |
| ConsistentHash.EveryLastOwns | pkg/loadbalancer/consistent.go:106-123 | every instance that is the last of its ID owns some key under some hash |
| ConsistentHash.NodeKeysTellIds | pkg/loadbalancer/consistent.go:113-113 | the virtual-node keys of different IDs never coincide |
| ConsistentHash.NodeKeysTellNodes | pkg/loadbalancer/consistent.go:113-113 | equal node keys mean the same ID and the same node number |
| ConsistentHash.NodeKeyReads | pkg/loadbalancer/consistent.go:113-113 | a node key is the ID, a dash and the node number in decimal: reading the digits gives the number, without leading zeros |
| ConsistentHash.DigitsReadBack | pkg/loadbalancer/consistent.go:113-113 | the numeral of n has only digits, no leading zero, and is worth n |
| ConsistentHash.PointsAreDistinct | pkg/loadbalancer/consistent.go:106-123 | under an injective hash the ring of a duplicate-free list has v points for each instance, all different |
| ConsistentHash.PointAt | pkg/loadbalancer/consistent.go:111-118 | every virtual node of every instance has its point in the ring, the hash of its key |
| ConsistentHash.NodeIsLastToTake | pkg/loadbalancer/consistent.go:111-118 | a point where instances collide belongs to the last of them |
| ConsistentHash.ReuseIffSameIds | pkg/loadbalancer/consistent.go:77-104 | for duplicate-free lists isSameInstances holds exactly when the ID sets are equal |
| ConsistentHash.ReuseSoundIffDistinct | pkg/loadbalancer/consistent.go:77-104 | the check is sound for every list exactly when the cached list has no duplicate ID |
| ConsistentHash.Landing | pkg/loadbalancer/consistent.go:65-74 | where a key lands: the least point at or after it, else the least point |
| ConsistentHash.LandingIsUnique | pkg/loadbalancer/consistent.go:65-74 | there is one such point |
| ConsistentHash.PointsAreNodes | pkg/loadbalancer/consistent.go:111-118 | the ring's points are exactly the keys of the node table |
| ConsistentHash.Search | pkg/loadbalancer/consistent.go:66-68 | binary search finds the first entry not below the hash |
| ConsistentHash.SearchLands | pkg/loadbalancer/consistent.go:66-74 | the entry the search picks, wrapped, is where the key lands |
| ConsistentHash.Sort | pkg/loadbalancer/consistent.go:120-122 | a sorted permutation |
| ConsistentHash.Balancer.constructor | pkg/loadbalancer/consistent.go:30-35 | an empty ring of 150 virtual nodes per instance |
| ConsistentHash.Balancer.IsSameInstances | pkg/loadbalancer/consistent.go:77-104 | compares lengths and the cached IDs against the given set |
| ConsistentHash.Balancer.Rebuild | pkg/loadbalancer/consistent.go:106-123 | ring and node table become those of the given list, with virtualNodes points for each instance; colliding points belong to the later instance |
| ConsistentHash.Balancer.AddNodes | pkg/loadbalancer/consistent.go:112-117 | adds one instance's virtual nodes, which take the points they share with earlier ones, and touches no other point |
| ConsistentHash.Balancer.Refresh | pkg/loadbalancer/consistent.go:49-53 | the write-locked section: afterwards the ring is that of the cached list if it is reused, else of the given one |
| ConsistentHash.Balancer.Pick | pkg/loadbalancer/consistent.go:44-75 | with no other pick between the two sections, returns the owner of the key's hash in the ring it reuses or rebuilds; an empty list is an error and changes nothing |
| ConsistentHash.Balancer.Lookup | pkg/loadbalancer/consistent.go:62-74 | the read-locked section: search and node table yield the owner in whatever ring is there |
| WeightedRoundRobin.WeightedFairness | pkg/loadbalancer/weighted.go:28-84 | any W picks in a row, W the sum of effective weights, return each instance exactly its weight times, 100 times when that is not positive, from any position and across the wrap |
| WeightedRoundRobin.PicksReadTheSchedule | pkg/loadbalancer/weighted.go:28-48 | a full turn of picks reads the schedule cyclically from where it stands |
| WeightedRoundRobin.PositionAfter | pkg/loadbalancer/weighted.go:28-48 | where the balancer stands after n picks |
| WeightedRoundRobin.EveryPick | pkg/loadbalancer/weighted.go:28-48 | every pick of any number in a row is told from where the balancer stood and whether the list had changed |
| WeightedRoundRobin.ScheduleAt | pkg/loadbalancer/weighted.go:50-66 | the schedule lists the instances in order, each in one block as long as its effective weight |
| WeightedRoundRobin.FirstAnswer | pkg/loadbalancer/weighted.go:50-66 | the first pick after a change of the list is its first instance |
| WeightedRoundRobin.ScheduleIsWeighted | pkg/loadbalancer/weighted.go:50-66 | the schedule names each instance its effective weight times, 100 for a non-positive weight |
| WeightedRoundRobin.SameSchedule | pkg/loadbalancer/weighted.go:68-84 | lists that compare equal have the same schedule |
| WeightedRoundRobin.AnswersFromGivenIff | pkg/loadbalancer/weighted.go:28-84 | from every position the answer is one of the given instances exactly when the schedule is rebuilt or every cached instance is given unchanged |
| WeightedRoundRobin.StaleAnswer | pkg/loadbalancer/weighted.go:68-84 | with an address changed under the same ID and weight the pick answers with the instance as it was |
| WeightedRoundRobin.Wrr.constructor | pkg/loadbalancer/weighted.go:23-25 | starts empty |
| WeightedRoundRobin.Wrr.IsSameInstances | pkg/loadbalancer/weighted.go:68-84 | compares IDs and weights position by position |
| WeightedRoundRobin.Wrr.Rebuild | pkg/loadbalancer/weighted.go:50-66 | the nested loops build the schedule |
| WeightedRoundRobin.Wrr.Pick | pkg/loadbalancer/weighted.go:28-48 | returns the schedule's next instance, which is the given list's in ID and weight, and the first of the list when that has changed; an empty list is an error and changes nothing |

## Left out

- Sockets, dialling, deadlines, keep-alive and the accept loop: a connection is two in-order streams that may fail.
- Goroutine scheduling, context switches between class methods: the step systems carry the interleavings; the methods
  of `MuxClient` and `Connection` are the sections between two cuts, and `BoundedPool` runs one operation at a time,
  with one borrower.
- A send that races `Client.Close` after the connection field becomes nil: it counts as a failed write.
- A response body that does not decode, at the caller: body codecs are assumed faithful in `RpcLink`; `Framing` has
  the error.
- The request semaphore: `MaxConcurrentRequests` is 0. A rejected request still reaches the handler and releases a
  slot it did not take, so there is no slot conservation to prove.
- Handler timeouts and cancellation inside a handler: a handler finishes with a response or an error at any time.
- The pool's `Close` racing `Get`, `Put`, cleanup or health check, and cleanup on a closed pool.
- RpcClient.MuxClient.CloseWithError: a second caller that arrives during the drain waits in closeOnce until the first
  is done, so its own section begins there; the waiting itself is in the step system, where EndLoop follows the drain.
- ConnectionPool.BoundedPool.CreateNew: without other operations in progress nobody puts a connection back, so a full
  pool with nothing idle ends in the wait timeout; the concurrent wait is in `PoolSteps`.
- Pool recovery after failed sends: `callOnce` closes such a connection without `Put`, so it stays lent.
- A context that is already done when `GetWithContext` is entered, and `Put` of nil: both return without touching the
  pool.
- Nil entries in an instance list. One field stands for everything in an instance but ID and weight, and instances are
  compared by value.
- Wait, hit and miss statistics of the pool, and configurations its validator rejects.
- TokenBucket.Limiter.WaitN: other users of the bucket between two refills, because the claim is about an uncontended
  wait.
- TokenBucket.RateBound: a negative capacity, which never grants; and rates outside 1..10^9, for which there is no
  such bound: above 10^9 or below zero every positive elapsed time refills to capacity, and zero divides by zero.
- CircuitBreaker.ExcessIff: a failure threshold that is not a number; the model's thresholds are real numbers.
- CircuitBreaker.TripSpacing: float rounding in the failure rate; the model divides exactly.
- Panicking calls under `breaker.Call`, which never report an outcome.
- JSON, protobuf, gzip and MD5 themselves.
- Discovery, registries, interceptors, configuration, logging, tracing and metrics.
- The random and plain round-robin balancers, which keep nothing between picks but a counter; the pool manager, a
  table of pools by address; dispatch of a method by reflection; and the demonstration server.
