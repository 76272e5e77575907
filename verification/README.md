# thrift-bench: verified models of its state machines

thrift-bench measures RPC frameworks. Most of it drives libraries; what it adds itself is a handful of
small state machines whose correctness its asserts and its printed figures rely on. This project models
them in Dafny and proves what they guarantee over whole runs.

| file | models |
|---|---|
| `AsyncIo.dfy` | the Linux-AIO completion engine as atomic steps of submitters, kernel and reaper, with its invariant |
| `AsyncIoRuns.dfy` | what that engine guarantees in every interleaving |
| `AsyncIoEngine.dfy` | its code: the `inflight_` vector, `ioSubmit`, `iosCompleted`, with other threads acting between the steps |
| `Reassembly.dfy` | fixed-size frame reassembly, on values and as the `ReadCallback` class over buffers |
| `EchoClient.dfy` | the socket client: request format, counters, `requests_send`, `request_received` |
| `EchoLoop.dfy` | client, echo server and the two byte streams as one machine; Little's law; the server's code |
| `CappedClient.dfy` | the window capped by remaining work, shared by fbthrift exp1, exp2 and exp3 |
| `ThreeTier.dfy` | the timed path client, DB, leaf and back, and the aggregation that is printed |
| `FixedWindow.dfy` | the fixed window with a cutoff |
| `AdaptiveWindow.dfy` | the window that follows measured IOPS, its statistics and its controller |
| `DbServer.dfy` | round-robin leaf choice, write fan-out and its barrier, leaf connections |
| `Tokenizers.dfy` | `Split` and `split` |
| `Dispatcher.dfy` | the wangle client's promise table |
| `Common.dfy` | options, `uint64_t` operators, a few facts about sets, sequences and division |

## How the models read

Where the original is concurrent, or an event loop decides what happens next, there is a machine: a
`State`, the `Action`s that threads, kernel, network or clock may take, `Enabled` and `Apply`. Nothing
is assumed about the order of actions, how many bytes a read gets, how many requests a turn completes,
or when time passes. An `assert` of the original is a test in `Apply` that sets a flag, and a theorem
says that no reachable state has it set. Where the original updates an object, there is a class with
its fields, and each method is proved to perform the machine's step (or the run of steps) on the view
of those fields. A loop that an outside party feeds takes a script or a schedule of what that party
does; every finite behaviour is some script.

Unsigned arithmetic is written out (`Sub64`, `Add64`, `Inc64`, `Dec64`), so "does not wrap" is proved.

## Results that need a condition

- **The drain loop and signal order.** When `iosCompleted` reads EAGAIN it has fulfilled as many IOs as
  were signalled, the oldest ones in the ring. They are the signalled ones exactly when the signals
  came in posting order (`DrainExit`); `OutOfOrderSignalMissed` is a run where they did not.
- **A refused submission.** The return value of `io_submit` is ignored. When the engine has nothing left
  to do, an IO's promise is set if and only if the kernel accepted it (`SettledFulfilled`);
  `RefusedIsStuck` reaches such a state with an IO that was refused.
- **A joined split.** Joining the tokens of `Split` gives back its input, and `split` returns at all, if
  and only if no field before the last is empty (`SplitJoin`, `SplitTerminates`).
- **The printed average depth** is at least one if and only if the reported depths exceed one, in all, by
  at least the number of clients that have not reported yet (`PrintedDepth`); so it is once every client
  has reported, and a lone client that was just added prints zero (`NewClientPrintsZero`).
- **The adaptive window**, without the request cutoff, equals the current depth after every send phase, and
  the fallback is never taken, if and only if no round overruns: ends a second over the limit, at a depth
  of two or more, having completed nothing (`FullUnlessOverrun`). Otherwise it exceeds the maximum by at most
  the number of rounds that completed nothing (`WindowOvershoot`), a bound that is met for every maximum
  above one (`OvershootIsReached`).
- **The write barrier.** A write is acknowledged when every call has ended, in a reply or an exception
  (`WriteBarrier`). From the outcomes of its calls the DB can conclude that the write is written everywhere
  if and only if no call failed (`AcknowledgedMeansWritten`): for every other combination of outcomes
  `FailedWriteAcknowledged` gives a run in which the failed leaves wrote nothing.
- **An interrupted request** of the wangle client breaks its caller's future and makes the CHECK fail when its
  response arrives, and nothing else does (`Correlation`, `LateResponseCrashes`).

## Assumptions about the environment

- One monotone clock; latencies fit their `uint64_t` sums.
- One reaper thread; calls of the DB handler are serialised. So are the wangle dispatcher's caller, its IO
  thread and whoever interrupts a future, which share the map without a lock.
- A single request's future is interrupted, if at all, from outside `wangle/client.cpp`, which never does so.
- The socket client's `WriteCallback`, an object on the stack that is handed to an asynchronous write, outlives
  that write.
- Each request that the transport accepts is answered at most once, and the echo server's peer closes
  nothing early. Connections succeed; only a write's calls to the leaves may fail afterwards.
- Fresh `IO` objects have fresh identities; `eventfd` counters do not reach their 64-bit limit.
- Window sizes are below 2^32, the source's parameter type, and request counts stay two windows below 2^64. The `StorageRpc` loop counter is 32 bits wide, so a window of 2^32 would not terminate.

## Model

| member | source | states |
|---|---|---|
| AsyncIo.FirstIndex | fbthrift/exp3/LEAF/AsyncIO.cpp:156-158 | the lookup gives the first position holding the pointer, or the end when there is none |
| AsyncIo.SwapPopTakes | fbthrift/exp3/LEAF/AsyncIO.cpp:161-168 | swapping with the back and popping hands out the element that was found; the last takes its place and every other keeps its own |
| AsyncIo.RemoveFinds | fbthrift/exp3/LEAF/AsyncIO.cpp:148-171 | the IO of a reaped event is in `inflight_`, and the pointer taken out is that IO |
| AsyncIo.FulfilledIsLogged | fbthrift/exp3/LEAF/AsyncIO.cpp:172-173 | a promise that is set holds its own IO and came from that IO's own event |
| AsyncIo.StepSafe | fbthrift/exp3/LEAF/AsyncIO.cpp:49-61 | from a state satisfying the invariant no assert fires and no destroyed IO is touched by any thread |
| AsyncIo.StepKeeps | fbthrift/exp3/LEAF/AsyncIO.cpp:88-176 | every atomic step of submitters, kernel and reaper keeps the invariant |
| AsyncIoRuns.Safety | fbthrift/exp3/LEAF/AsyncIO.cpp:88-176 | in every interleaving `inflight_` is the disjoint union of its five kinds of IO, without duplicates, each promise is set at most once, with its own IO and result, and an IO is destroyed exactly when its continuation has run |
| AsyncIoRuns.AssertsHold | fbthrift/exp3/LEAF/AsyncIO.cpp:159-173 | what the asserts and pointer uses need, said of every reachable state itself |
| AsyncIoRuns.ContinuationDestroys | fbthrift/exp3/LEAF/LeafServer.cpp:93-95 | the continuation destroys the IO it was given, which was alive, and changes nothing else |
| AsyncIoRuns.PromiseIsFinal | fbthrift/exp3/LEAF/AsyncIO.cpp:58-61 | once set, a promise and its result never change in any continuation |
| AsyncIoRuns.GetEventsNeverWaits | fbthrift/exp3/LEAF/AsyncIO.cpp:132-146 | the ring always covers claimed plus counted events, so asking for exactly `nevents` returns at once with `nevents` |
| AsyncIoRuns.DrainExit | fbthrift/exp3/LEAF/AsyncIO.cpp:132-141 | at EAGAIN as many IOs are fulfilled as were signalled, the oldest ones; they are the signalled ones exactly when signals came in posting order |
| AsyncIoRuns.OutOfOrderSignalMissed | fbthrift/exp3/LEAF/AsyncIO.cpp:132-141 | a reachable drain exit with a signalled IO still unfulfilled |
| AsyncIoRuns.EngineTerminates | fbthrift/exp3/LEAF/AsyncIO.cpp:129-176 | without new submissions the engine takes a bounded number of steps in any interleaving |
| AsyncIoRuns.SettledFulfilled | fbthrift/exp3/LEAF/AsyncIO.cpp:88-102 | when nothing is left to do a promise is set if and only if its submission was accepted; refused IOs stay in `inflight_` |
| AsyncIoRuns.SettledContinues | fbthrift/exp3/LEAF/LeafServer.cpp:93-100 | then the continuation of every accepted IO has run or can run |
| AsyncIoRuns.RefusedIsStuck | fbthrift/exp3/LEAF/AsyncIO.cpp:98-101 | a reachable settled state with a refused IO whose promise is never set |
| AsyncIoRuns.ResultRoundTrip | fbthrift/exp3/LEAF/AsyncIO.cpp:125-127 | a 64-bit result posted in `res` reaches the caller unchanged |
| AsyncIoRuns.ResultHalves | fbthrift/exp3/LEAF/AsyncIO.cpp:125-127 | for all words, the low half is that of `res`, the high half is the low half of `res2` or-ed with the high half of `res` |
| AsyncIoRuns.OrBits | fbthrift/exp3/LEAF/AsyncIO.cpp:125-127 | each bit of the combined word is set if and only if it is set in one of the two |
| AsyncIoEngine.InflightVector.PushBack | fbthrift/exp3/LEAF/AsyncIO.cpp:91-93 | the pointer is appended, growing the storage when it is full |
| AsyncIoEngine.InflightVector.Find | fbthrift/exp3/LEAF/AsyncIO.cpp:156-158 | the search loop finds the first index |
| AsyncIoEngine.InflightVector.Take | fbthrift/exp3/LEAF/AsyncIO.cpp:155-169 | find, swap with the back and pop in place: the new contents and the pointer taken out, or nothing when absent |
| AsyncIoEngine.IO.SetResult | fbthrift/exp3/LEAF/AsyncIO.cpp:49-52 | the result field changes and nothing else; only before the promise is set |
| AsyncIoEngine.IO.CompletePromise | fbthrift/exp3/LEAF/AsyncIO.cpp:58-61 | the promise is set to the object itself, once |
| AsyncIoEngine.AsyncIO.IoSubmit | fbthrift/exp3/LEAF/AsyncIO.cpp:88-102 | whatever the other threads do in between, the call is a run of the machine and the IO is still alive when its future is taken |
| AsyncIoEngine.AsyncIO.HandlerReady | fbthrift/exp3/LEAF/AsyncIO.h:67-72 | a readable eventfd starts the drain |
| AsyncIoEngine.AsyncIO.EventfdRead | fbthrift/exp3/LEAF/AsyncIO.cpp:133-141 | reads and clears the counter, or leaves the loop at zero |
| AsyncIoEngine.AsyncIO.IoGetevents | fbthrift/exp3/LEAF/AsyncIO.cpp:144-146 | removes exactly the oldest `nevents` records from the ring |
| AsyncIoEngine.AsyncIO.TakeInflight | fbthrift/exp3/LEAF/AsyncIO.cpp:155-171 | takes the event's IO out of `inflight_`; the lookup cannot fail |
| AsyncIoEngine.AsyncIO.StoreResult | fbthrift/exp3/LEAF/AsyncIO.cpp:49-52 | stores the result of an IO whose promise is not yet set |
| AsyncIoEngine.AsyncIO.CompletePromise | fbthrift/exp3/LEAF/AsyncIO.cpp:58-61 | sets the promise of the IO to that IO |
| AsyncIoEngine.AsyncIO.DrainOnce | fbthrift/exp3/LEAF/AsyncIO.cpp:132-175 | one iteration, ending or not, is a run of the machine under any interference |
| AsyncIoEngine.AsyncIO.IosCompleted | fbthrift/exp3/LEAF/AsyncIO.cpp:129-176 | under any finite interference the drain is a run of the machine, ends, and leaves every counted event fulfilled |
| Reassembly.CutAt | AsyncIO/request.h:89-106 | block k of a stream is its bytes k*n up to (k+1)*n |
| Reassembly.CutCounts | AsyncIO/request.h:89-106 | blocks and remainder account for every byte and the remainder is shorter than a block |
| Reassembly.ChunkingIndependence | AsyncIO/request.h:73-106 | for every stream and all read sizes, the delivered requests are the whole blocks consumed and the buffer holds the remainder |
| Reassembly.DriveAppend | AsyncIO/request.h:73-106 | each read continues where the ones before it stopped |
| Reassembly.SameBytesSameFrames | AsyncIO/request.h:73-106 | two ways of cutting the same bytes into reads end in the same state |
| Reassembly.ReadCallback.GetReadBuffer | AsyncIO/request.h:73-87 | offers between 1 and `req_size_` bytes at the end of what was read, allocating only when no buffer is held |
| Reassembly.ReadCallback.ReadDataAvailable | AsyncIO/request.h:89-106 | a full buffer leaves the object before the callback gets it, and buffers allocated = delivered + held |
| Reassembly.ReadCallback.Receive | AsyncIO/request.h:73-106 | one read advances the reassembly by its bytes and writes to no delivered buffer |
| EchoClient.RequestRoundTrip | AsyncIO/request.h:22-25 | the id read from a request's bytes is the id written |
| EchoClient.SendAllRecords | AsyncIO/net-client.cpp:137-154 | the k-th new request has the k-th next id and the k-th clock reading; old entries are kept |
| EchoClient.Benchmark.RequestsSend | AsyncIO/net-client.cpp:137-154 | sends the next n ids in order, the k-th with the k-th clock reading, and keeps old entries |
| EchoClient.Benchmark.RequestReceived | AsyncIO/net-client.cpp:161-181 | accounts one response, then sends one more, waits, or stops |
| EchoLoop.NextResponse | AsyncIO/net-client.cpp:161-168 | the next whole frame at the client is the echo of its oldest unanswered request |
| EchoLoop.StepKeeps | AsyncIO/net-client.cpp:128-181 | sends, reads of any size on either side and the passing of time keep streams, counters, `req_time` and latency account consistent |
| EchoLoop.ClosedLoop | AsyncIO/net-client.cpp:137-181 | on every run the id lookup succeeds, response k carries id k, sent = outstanding + completed, and outstanding never exceeds `qdepth` |
| EchoLoop.StoppedOnce | AsyncIO/net-client.cpp:172-180 | the loop is stopped at most once, exactly when `max_requests + qdepth - 1` were sent and completed, with nothing left in flight |
| EchoLoop.LittlesLaw | AsyncIO/net-client.cpp:111-170 | reported latency plus ages of outstanding requests is the area under the outstanding count, at most `qdepth` times the elapsed time |
| EchoLoop.RunClock | AsyncIO/net-client.cpp:128-131 | clock and area are those of the run, and the start time is the time of connecting |
| EchoLoop.LittlesLawOfRun | AsyncIO/net-client.cpp:111-170 | the law in terms of the run: its area, and the time that passed since it connected |
| EchoLoop.PrintedAverage | AsyncIO/net-client.cpp:111-125 | the printed average latency is at most `qdepth` times the run time over the request count |
| EchoLoop.ProgressIsBounded | AsyncIO/net-client.cpp:128-181 | every run makes a bounded number of steps that send or move bytes |
| EchoLoop.NeverStuck | AsyncIO/net-client.cpp:128-181 | after connecting with a positive depth, no such step is possible exactly when the loop was stopped |
| EchoLoop.EchoIsTruncation | AsyncIO/net-server.cpp:59-68 | the server writes back what it consumed cut to whole frames |
| EchoLoop.EchoServer.ReadDataAvailable | AsyncIO/net-server.cpp:59-68 | the frame is written back verbatim |
| EchoLoop.EchoServer.ServeOne | AsyncIO/net-server.cpp:59-68 | one read writes back the frame it completes, if it does |
| EchoLoop.EchoServer.Serve | AsyncIO/net-server.cpp:99-110 | reads of any size write back exactly the frames they complete |
| CappedClient.RespondKeeps | fbthrift/exp3/DB/client.cpp:97-114 | any unanswered request may be answered next: its entry is found, only it is erased, and the invariant holds |
| CappedClient.ToSendIsCap | fbthrift/exp1/client.cpp:161-168 | the recomputed `req_tosend` is min(Q - out, max(N - complete, 0)) and no unsigned operator wraps |
| CappedClient.CappedWindow | fbthrift/exp1/client.cpp:118-169 | on every run: the lookup never fails, `req_time` holds exactly the unanswered ids, window, bound N + Q - 1 on requests scheduled, no turn with nothing outstanding, the next window is min(Q - out, N - complete) |
| CappedClient.TotalsAreSums | fbthrift/exp2/DB/client.cpp:105-109 | each total is the sum of its own field over the responses, in any order |
| CappedClient.LatencyConserved | fbthrift/exp2/DB/client.cpp:98-105 | the measured latency is the response times less the send times, open requests set aside |
| CappedClient.SendLoopRecords | fbthrift/exp2/DB/client.cpp:83-113 | the send loop enters the clock of its k-th iteration for the k-th new id and touches no total |
| CappedClient.FirstWindowIsFull | fbthrift/exp1/client.cpp:118-124 | the first window is the whole depth |
| CappedClient.HandleAllAccounts | fbthrift/exp2/DB/client.cpp:95-112 | one event loop turn handles exactly the arrivals that answer an open request, and accounts for each in every total |
| CappedClient.ScheduleAccounts | fbthrift/exp2/DB/client.cpp:82-127 | over a whole schedule each total is the sum of its own field over the answers, the client's that of arrival less send time |
| CappedClient.ScheduleIsRun | fbthrift/exp3/DB/client.cpp:83-128 | the loop under any schedule is a run of the machine |
| CappedClient.EnoughTurns | fbthrift/exp3/DB/client.cpp:88-128 | after N turns that each handled a response the loop has ended |
| CappedClient.ScheduleFinishes | fbthrift/exp2/DB/client.cpp:82-127 | N answering turns end the loop with N <= complete <= scheduled <= N + Q - 1 |
| CappedClient.ZeroDepthNeverEnds | fbthrift/exp1/client.cpp:118-169 | with depth zero and work to do the loop never ends |
| CappedClient.Client.SendRequests | fbthrift/exp3/DB/client.cpp:89-117 | the send loop issues `req_tosend` requests with consecutive ids and their send times |
| CappedClient.Client.Handle | fbthrift/exp3/DB/client.cpp:97-114 | one response erases its own entry and adds its latencies |
| CappedClient.Client.LoopOnce | fbthrift/exp3/DB/client.cpp:119 | one event loop turn accounts for exactly the arrivals that answer an open request |
| CappedClient.Client.Recompute | fbthrift/exp3/DB/client.cpp:120-127 | the new `req_tosend` is min(Q - out, max(N - complete, 0)) unless a counter is at the end of its range |
| CappedClient.Client.StartBenchmark | fbthrift/exp3/DB/client.cpp:83-128 | the whole loop performs the turns of its schedule, and its five totals are the sums over the answers in it |
| ThreeTier.StepKeeps | fbthrift/exp3/DB/DBServer.cpp:120-151 | every handler keeps times in order, figures exact, request ids intact, and the client's entry for each call |
| ThreeTier.NestedMeasurement | fbthrift/exp3/LEAF/LeafServer.cpp:103-139 | on every run each response has its own request's id and the exact spans of its handlers, db >= leaf >= io + cpu per response and in the thread's totals, and no id assert fails |
| ThreeTier.CallsMove | fbthrift/exp3/DB/DBServer.cpp:120-151 | no call is ever stuck |
| ThreeTier.TotalsAreSpans | fbthrift/exp2/DB/client.cpp:98-109 | each total is the sum of its span over the responses delivered, however they overlapped |
| ThreeTier.LittlesLaw | fbthrift/exp2/DB/client.cpp:82-127 | on every run the latency a thread measures, plus the ages of its open requests, is the area under its outstanding count, at most its depth times the elapsed time |
| ThreeTier.PrintedDifferences | fbthrift/exp2/DB/client.cpp:174-202 | the printed averages are the sums divided by the count, their printed unsigned differences the true ones, and close to the averages of the differences |
| ThreeTier.PrintedEndToEnd | fbthrift/exp2/DB/client.cpp:150-202 | whatever happens in any number of threads, no printed difference wraps |
| ThreeTier.SumUp | fbthrift/exp3/DB/client.cpp:171-181 | the summing loop computes, field by field, the sums over all threads |
| ThreeTier.Aggregate | fbthrift/exp3/DB/client.cpp:183-193 | dividing in place and subtracting gives the printed line |
| FixedWindow.FixedWindowHolds | StorageRpc/Client.cpp:219-246 | on every run: sent = complete + out, out <= K, the refill is exactly K - out until the cutoff and never wraps, at most R + K - 1 sent, never idle before the goal |
| FixedWindow.RoundsInTurn | StorageRpc/Client.cpp:225-246 | the loop takes its rounds one by one until the goal is met, and counts what each completes |
| FixedWindow.FixedWindowFinishes | StorageRpc/Client.cpp:225-246 | with a completion per round the goal is met |
| FixedWindow.ZeroDepthSendsNothing | StorageRpc/Client.cpp:225-246 | with depth zero nothing changes for ever |
| FixedWindow.Sender.BenchmarkSend | StorageRpc/Client.cpp:220-246 | the loop performs the rounds of its schedule |
| AdaptiveWindow.StatisticsConserved | StorageRpc/Client.cpp:143-188 | after every round reported IOs + IOs of this second = sent = last id = complete + out, and the reported depth is in [1, K] exactly when there was a report |
| AdaptiveWindow.RoundExactly | StorageRpc/Client.cpp:153-199 | a round field by field: the second's own depth and IOs are reported, the depth moves by at most one, and the next window is depth less outstanding, one, or none after the cutoff |
| AdaptiveWindow.CutoffHolds | StorageRpc/Client.cpp:196-198 | with the cutoff nothing is sent beyond the goal, which is overshot by at most the maximum depth |
| AdaptiveWindow.FullUnlessOverrun | StorageRpc/Client.cpp:153-199 | without cutoff, outstanding equals the depth after every send phase, and the fallback is never taken, if and only if no round overruns |
| AdaptiveWindow.WindowIsDepth | StorageRpc/Client.cpp:153-199 | from the start, this holds if every round completes something or the maximum depth is one |
| AdaptiveWindow.WindowOvershoot | StorageRpc/Client.cpp:153-199 | in general outstanding after sending is at most K plus the rounds that completed nothing |
| AdaptiveWindow.OvershootIsReached | StorageRpc/Client.cpp:177-195 | for every K above one that bound is met, by runs with any positive number of empty rounds |
| AdaptiveWindow.Converges | StorageRpc/Client.cpp:173-188 | from any depth, within K seconds, the depth rests for ever or alternates for ever between two neighbours |
| AdaptiveWindow.StraddleIsLeast | StorageRpc/Client.cpp:177-181 | if the rate does not fall with the depth, the pair is the least depth reaching the limit and the one below, from every start |
| AdaptiveWindow.DepthFollowsController | StorageRpc/Client.cpp:153-199 | in any run the depth moves only at the end of a second, as the controller says |
| AdaptiveWindow.RunsConverge | StorageRpc/Client.cpp:153-199 | in every run whose seconds measure a rate, the loop's depth rests or alternates after fewer than K seconds |
| AdaptiveWindow.MeasuredRun | StorageRpc/Client.cpp:153-199 | such runs exist with any number of seconds: completing everything each second measures the depth itself |
| AdaptiveWindow.PrintedDepth | StorageRpc/Client.cpp:85-114 | the printed average depth is at most K, and at least 1 exactly when the reported depths make up for the silent clients |
| AdaptiveWindow.NewClientPrintsZero | StorageRpc/Client.cpp:68-73 | a client that was just added is reported with depth 0 |
| AdaptiveWindow.StatsCollector.ClientAdd | StorageRpc/Client.cpp:68-73 | adds a fresh row for a new client |
| AdaptiveWindow.StatsCollector.Update | StorageRpc/Client.cpp:75-83 | replaces depth and IOPS, adds the new IOs, counts the update |
| AdaptiveWindow.StatsCollector.DumpInfo | StorageRpc/Client.cpp:85-114 | the average depth and IOPS over the rows, or none without clients |
| AdaptiveWindow.EchoSender.Adjust | StorageRpc/Client.cpp:171-189 | reports the depth and IOs of the second that ended, then one controller step, clamp and reset; other clients' rows stay |
| AdaptiveWindow.EchoSender.Refill | StorageRpc/Client.cpp:191-198 | the next `to_send` with its fallback and cutoff |
| AdaptiveWindow.EchoSender.BenchmarkEcho | StorageRpc/Client.cpp:153-199 | the loop performs the rounds of its schedule |
| DbServer.RoundRobin | fbthrift/exp3/DB/DBServer.cpp:86-89 | exactly how often k calls choose each leaf |
| DbServer.RoundRobinFair | fbthrift/exp2/DB/DBServer.cpp:98-101 | over any k calls the counts of two leaves differ by at most one |
| DbServer.WriteBarrier | fbthrift/exp3/DB/DBServer.cpp:94-118 | a write is acknowledged at most once, exactly when every leaf was called and every call has ended, in any order; if none failed it is then written everywhere |
| DbServer.AcknowledgedMeansWritten | fbthrift/exp3/DB/DBServer.cpp:113-116 | the outcomes of an acknowledged write's calls guarantee that it is written everywhere if and only if none of them is a failure |
| DbServer.FailedWriteAcknowledged | fbthrift/exp3/DB/DBServer.cpp:113-116 | for every number of leaves and every pattern with a failure, a run that acknowledges a write which is not written everywhere |
| DbServer.WholeWriteIsRun | fbthrift/exp3/DB/DBServer.cpp:101-116 | the loop calls every leaf and then waits, and with the others' steps in between it is a run of the machine |
| DbServer.QuietMeansAcknowledged | fbthrift/exp3/LEAF/LeafServer.cpp:93-100 | when nothing is left to do at DB and leaves for calls that have not failed, every write has been acknowledged |
| DbServer.Leaf.Connect | fbthrift/exp3/DB/DBServer.cpp:61-69 | connecting is only done without a connection, and makes one |
| DbServer.Leaf.SetDisconnected | fbthrift/exp3/DB/DBServer.cpp:71-74 | a closed channel clears handle and flag together |
| DbServer.DbHandler.GetLeaf | fbthrift/exp3/DB/DBServer.cpp:86-89 | advances to the next leaf, wrapping around |
| DbServer.DbHandler.AsyncTmRead | fbthrift/exp3/DB/DBServer.cpp:120-136 | the read goes to the next leaf, connected if need be, and to no other |
| DbServer.DbHandler.ReadsAreBalanced | fbthrift/exp3/DB/DBServer.cpp:86-89 | at any time the reads sent to two leaves differ by at most one |
| DbServer.DbHandler.AsyncTmWrite | fbthrift/exp3/DB/DBServer.cpp:101-116 | every leaf connected and asked exactly once, each request being a step of the write in the machine, whatever others do in between |
| Tokenizers.SplitJoin | StorageRpc/Client.cpp:321-336 | `Split` returns at least one token, and joining gives back the input exactly when no field is empty |
| Tokenizers.NonEmptyConcat | StorageRpc/Client.cpp:326-331 | only empty pieces are dropped, and the order is kept |
| Tokenizers.Split | StorageRpc/Client.cpp:321-336 | the non-empty pieces in order, then the last piece whether or not it is empty |
| Tokenizers.SplitTerminates | fbthrift/exp3/DB/DBServer.cpp:157-171 | `split` terminates exactly when every piece followed by a delimiter is non-empty |
| Tokenizers.LeadingDelimiterHangs | fbthrift/exp2/DB/DBServer.cpp:167-181 | on an input that starts with the delimiter `split` never returns, and joining the tokens of `Split` does not give it back |
| Tokenizers.SplittersAgree | fbthrift/exp3/DB/DBServer.cpp:157-171 | where `split` terminates, it agrees with `Split` and joining gives back the input |
| Tokenizers.SplitList | fbthrift/exp3/DB/DBServer.cpp:157-171 | the loop returns all pieces when it terminates |
| Dispatcher.Correlation | wangle/client.cpp:56-72 | every call is in `requests_`, or its future holds its own id, or it was interrupted and its future is broken; the CHECK fails exactly for an interrupted id |
| Dispatcher.LateResponseCrashes | wangle/client.cpp:56-72 | a run in which a response arrives after the interrupt and the CHECK fails |
| Dispatcher.NoInterruptNoCrash | wangle/client.cpp:56-72 | without interrupts responses in any order never fail the CHECK, and a call is answered once it is off the wire |
| Dispatcher.MsgClientDispatcher.Read | wangle/client.cpp:56-62 | finds and erases the entry and fulfils its promise, or fails the CHECK, which it does exactly when the request was interrupted |
| Dispatcher.MsgClientDispatcher.Send | wangle/client.cpp:64-72 | enters a fresh promise under the request's id, writes the message, hands out the future |
| Dispatcher.MsgClientDispatcher.OnInterrupt | wangle/client.cpp:67-69 | the entry is erased and the caller's future broken, and nothing else changes |

## Left out

- Sockets, the event loop's internals, folly futures beyond "set once", generated thrift code, the kernel's
  ring beyond its order, real threads and real clocks: replaced by the machines' actions.
- Pointers to `IO` objects are identities that are looked up: reuse of an address after destruction is not
  captured, destruction itself is, and so is any use after it.
- AsyncIoEngine.AsyncIO.IosCompleted: the time between the script's end and EAGAIN is quiet, because a
  drain under completions that never cease need not end; of such a drain each iteration is covered.
- `AsyncIO` destruction, `io_setup` failure and `posix_memalign` failure.
- ReadCallback errors and end of file, and write failures of the echo server.
- Reassembly.ReadCallback.ReadDataAvailable: requires a preceding `getReadBuffer` and a length within the
  offer, which is the transport's protocol.
- CappedClient.Client.Handle: requires a response to a request that the transport still holds. The
  dictionary latency of exp1 is not among the totals.
- Dispatcher.MsgClientDispatcher.Send: requires an id that was not called before, as the caller's counter provides.
- The leaf's file contents: its read path opens with truncation, so nothing is claimed about data read back.
- The domain-socket client's pacing loop, which never counts what it sends.
- The serialization benchmarks, the apache-thrift servers, command lines, CSV output and makefiles.
- 32-bit accumulators of `DumpInfo` and 32-bit loop counters: sums and windows are taken to fit.
