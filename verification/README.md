# A verified model of the heraProxy core

This project models, in Dafny, the parts of the heraProxy proxy server where the difficulty
lies, and proves what they promise: for every input, every interleaving of threads, or every
run. Code that changes things step by step is modelled as classes and methods; code that several
goroutines run at once is modelled as a transition system whose step is one atomic access, one
critical section or one channel operation, and the theorems speak of every run of that system.

* **TLS ClientHello parser** (`Bytes`, `Codec`, `ClientHelloGrammar`, `ClientHelloMessage`,
  `ClientHelloProperties`, `ClientHelloCanonical`, `ClientHelloBytes`, `ClientHelloDisplays`,
  `ClientHelloParser`). The grammar that the code accepts is written down as a serializer with its
  side conditions; a reader on values is its exact inverse; the cursor-style parser is a class whose
  methods are proved against that reader; and `ClientHelloBytes` writes the same language and its
  meaning once more in plain bytes, apart from the reader, and proves that they agree. The names of
  the fields and extensions follow sections 4.1.2 and 4.2 of RFC 8446, section 3 of RFC 6066 and
  section 3.3 of RFC 5746, but the grammar is the code's: record and handshake headers are skipped
  unchecked and the extensions block is mandatory.
* **Task runners** (`AtomicTask`, `ResultCollector`, `CollectorOutcome`, `CollectorProgress`,
  `TimedCollector`): the compare-and-swap runner with its condition variable, and the collector of a
  given number of results with and without a deadline.
* **Queue and message shutdown** (`MQueue`, `QueueThreads`, `SendQueues`, `SendQueuesShutdown`):
  the linked list with recycled nodes on the heap; any number of threads on it; eight queues with
  four handlers each, and the close that waits for them.
* **Flow limiter** (`FlowLimit`, `FlowLimitRuns`, `FlowLimitGrants`, `FlowLimitUpdates`,
  `FlowLimitBound`, `ReaderValue`, `LimitedReader`, `ReaderRuns`): shards, pool and clock, alone and
  under interleaving, with parameters changed at any time, and the buffered readers on top, alone and
  many on one limiter.
* **Registries** (`ShardedValue`, `ConcurrentMap`, `CountRuns`, `MapSnapshot`, `SnapshotProgress`,
  `RegistryValue`, `Registry`, `RegistryRuns`): the sharded map as one map, counting it and walking
  over it while others write, the reference-counted user contexts and the counts per ip, as methods
  and under interleaving.
* **SOCKS5 and sniffing** (`Socks5Wire`, `Socks5`, `SniffNotice`): the address and login codec on
  a chunked stream, and the wrapper whose callback fires once.
* **Login cache** (`AuthCache`, `AuthRuns`): the static IPv6 login with its cache against the store
  that the event handlers write, as methods and with many logins in flight.

`Prelude` and `Sums` hold what several modules share. Where methods and transition systems share a
value function, what that function does is stated apart from it: byte by byte, field by field, or as
a function of the actions of a run.

Where code and expectation part:

* `UnmarshalByByte` panics on a buffer of one to four bytes that starts with 0x16; the model has
  an outcome for that.
* A ban does not take effect 30 seconds later in every run: a login that fetched its record before
  the ban may put it into the cache at any time after it (`AuthRuns.SlowLoginOutlivesBan`). Counted
  from a moment with no such login, it takes effect when *more* than 30 seconds have passed, and not
  before (`AuthRuns.BanThreshold`).
* The rate of a limiter is read up to four times in one grant, without a lock, while the parameters
  can be changed. A change in between can overdraw a shard, give a call more than it asked for, or
  grant more than was deducted (`FlowLimitUpdates.OverdraftRun`, `FlowLimitUpdates.ExcessRun`,
  `FlowLimitUpdates.SkewedRun`); `FlowLimitUpdates.RightIffCareful` is the exact condition under
  which none of this happens.
* A limited reader trusts the limiter's answer. Given more than it has buffered, it delivers stale
  bytes and then reports the end of the file for ever (`ReaderRuns.StaleRun`,
  `ReaderRuns.NothingAfterwards`), or panics at the end of its buffer
  (`ReaderValue.PanicsAtTheEnd`); `ReaderValue.SoundIff` is the exact condition per call, and
  `ReaderRuns.ReadersStaySound` says that harmless parameter changes never cause it.
* A limiter grants something if and only if its burst is at least eight bytes
  (`FlowLimitBound.GrantsSomethingIff`), because the share of a shard is rounded down; below that a
  reader moves one forced byte at a time.
* `Count` of the sharded map under writers can be a size that the map never has
  (`CountRuns.PhantomCount`); `CountRuns.CountUnderWriters` says how far it is off, and
  `CountRuns.CountBetween` bounds it when the writers only insert or only remove.
* A reply with a name of more than 255 bytes or a port outside 16 bits is written, but does not
  read back; `Socks5Wire.ReplyReadsBackIff` is the exact condition.

## Model

| member | source | states |
|---|---|---|
| ClientHelloGrammar.DecodeOfEncode | server/sniffing/tls/client_hello.go:209-443 | for each of the known extensions, and an unknown one with any body, the decoder recovers a valid extension from its encoding |
| ClientHelloGrammar.EncodeOfDecode | server/sniffing/tls/client_hello.go:209-443 | a decoded body is exactly the encoding of what was decoded: every length prefix fits and the body is fully consumed |
| ClientHelloMessage.ParseOfSerialize | server/sniffing/tls/client_hello.go:155-446 | every valid wire form is read back from its bytes |
| ClientHelloMessage.SerializeOfParse | server/sniffing/tls/client_hello.go:155-446 | whatever is read is valid and serializes to exactly the input, so nothing trails and nothing is skipped |
| ClientHelloMessage.AcceptsExactlyTheGrammar | server/sniffing/tls/client_hello.go:155-446 | a buffer is accepted if and only if it is the serialization of a valid ClientHello (fitting lengths, distinct extension ids, consumed bodies, pre_shared_key last), and that ClientHello is unique |
| ClientHelloProperties.ApplyCommutes | server/sniffing/tls/client_hello.go:225-442 | extensions with different ids can be applied to the message in either order |
| ClientHelloProperties.PermutationKeepsOutcome | server/sniffing/tls/client_hello.go:209-443 | permuting the extensions with pre_shared_key kept last changes neither acceptance nor any field of the message |
| ClientHelloCanonical.CanonicalRoundTrip | server/sniffing/tls/client_hello.go:155-446 | every well-formed message value is recovered, in all fields, from its canonical serialization |
| ClientHelloCanonical.ParsedIsWellFormed | server/sniffing/tls/client_hello.go:155-446 | every accepted message is a well-formed value |
| ClientHelloCanonical.ReadableIffWellFormed | server/sniffing/tls/client_hello.go:155-446 | the values that parsing can produce are exactly the well-formed ones |
| ClientHelloCanonical.AcceptedNameHasNoDot | server/sniffing/tls/client_hello.go:228-257 | the server name of an accepted message does not end in a dot |
| ClientHelloParser.ScanIsExact | server/sniffing/tls/client_hello.go:235-256 | the loop over the server name list accepts exactly the lists of the grammar, and on errors leaves a name that stands in the list |
| ClientHelloParser.ReadNames | server/sniffing/tls/client_hello.go:235-256 | the loop computes that scan |
| ClientHelloParser.ServerNameIsSlice | server/sniffing/tls/client_hello.go:228-257 | a server name found in the name list of an SNI extension of the input, accepted or not, is a contiguous slice right behind name type 0 and its own 16-bit length |
| ClientHelloParser.ClientHelloMsg.FillExtension | server/sniffing/tls/client_hello.go:226-442 | one extension is accepted if and only if its body decodes (and pre_shared_key is last), and then its fields are set and no others |
| ClientHelloParser.ClientHelloMsg.FillBlock | server/sniffing/tls/client_hello.go:209-443 | the loop over the extensions accepts exactly what the reader of the block accepts, with the same message, and any server name left behind stands in the block |
| ClientHelloParser.ClientHelloMsg.FillHead | server/sniffing/tls/client_hello.go:155-207 | the fields before the extensions are read and set one by one, and accepted exactly as the reader on values does |
| ClientHelloParser.ClientHelloMsg.Unmarshal | server/sniffing/tls/client_hello.go:155-446 | the parser accepts exactly the grammar, with the message value of the grammar; on errors a server name is still one from the name list of the SNI extension |
| ClientHelloParser.ClientHelloMsg.UnmarshalByByte | server/sniffing/tls/client_hello.go:140-152 | which buffers panic, are rejected and are accepted, and what happens to the message in each case; a buffer is accepted if and only if it starts with 16 hex and holds, behind five bytes, the plain bytes of an allowed message, and then the message has exactly the fields these stand for; an ordinary message that names a host is accepted with that host name |
| ClientHelloBytes.ReadsExactly | server/sniffing/tls/client_hello.go:70-446 | written without anything of the reader: the extension numbers, length prefixes, lists and 16- and 32-bit numbers as plain bytes, the rules on their contents, and the field each extension sets. A buffer is accepted with a given message if and only if it is the plain bytes of an allowed message with these fields |
| ClientHelloBytes.ValidIff | server/sniffing/tls/client_hello.go:228-441 | the rules of the grammar on each extension are the plain ones: non-empty lists and strings, one host name at most and none that ends in a dot, lengths that fit their prefix, ids outside the opened ones for an unknown extension |
| ClientHelloBytes.FieldsAreMeaning | server/sniffing/tls/client_hello.go:226-442 | reading the extensions one after the other leaves in each field what the extension with its number holds, or the zero value if there is none |
| ClientHelloDisplays.ReadsServerName | server/sniffing/tls/client_hello.go:228-257 | a whole message written out byte by byte, with a server_name extension (00 00), is accepted, and the host name is its only extension field |
| ClientHelloDisplays.ReadsStatusRequest | server/sniffing/tls/client_hello.go:258-268 | the same for status_request (00 05): only type 1 asks for stapling |
| ClientHelloDisplays.ReadsNumbers | server/sniffing/tls/client_hello.go:269-323 | the same for supported_groups (00 0A), signature_algorithms (00 0D) and signature_algorithms_cert (00 32), for any list |
| ClientHelloDisplays.ReadsVersions | server/sniffing/tls/client_hello.go:351-364 | the same for supported_versions (00 2B), whose list has a one-byte length |
| ClientHelloDisplays.NumbersInPlace | server/sniffing/tls/client_hello.go:275-282 | the numbers of such a list stand in its bytes two by two, the higher byte first |
| ClientHelloDisplays.ReadsStrings | server/sniffing/tls/client_hello.go:283-394 | the same for ec_point_formats (00 0B), psk_key_exchange_modes (00 2D) and renegotiation_info (FF 01), which also sets the renegotiation flag |
| ClientHelloDisplays.ReadsCookie | server/sniffing/tls/client_hello.go:365-370 | the same for cookie (00 2C) |
| ClientHelloDisplays.ReadsFlag | server/sniffing/tls/client_hello.go:331-389 | the same for signed_certificate_timestamp (00 12), extended_master_secret (00 17) and early_data (00 2A) |
| ClientHelloDisplays.ReadsPlain | server/sniffing/tls/client_hello.go:289-437 | the same for session_ticket (00 23) and quic_transport_parameters (00 39) with any content; an extension with any other number that the code does not open sets nothing |
| ClientHelloDisplays.ReadsAlpn | server/sniffing/tls/client_hello.go:334-347 | the same for application_layer_protocol_negotiation (00 10) |
| ClientHelloDisplays.ReadsKeyShare | server/sniffing/tls/client_hello.go:371-386 | the same for key_share (00 33) |
| ClientHelloDisplays.ReadsPreSharedKey | server/sniffing/tls/client_hello.go:401-434 | the same for pre_shared_key (00 29), with the 32-bit ticket age |
| ClientHelloDisplays.ReadsSuites | server/sniffing/tls/client_hello.go:171-191 | a whole message with any list of cipher suites and no extension: the suites are read in order, and the flag for secure renegotiation is set if and only if 00 FF is among them |
| AtomicTask.RunsKeepInv | utils/taskRunManager/atomicTask.go:26-78 | every step of any number of callers and tasks keeps: counter = running tasks, at most the limit; one lock owner; no lost wakeup |
| AtomicTask.EveryReachableState | utils/taskRunManager/atomicTask.go:26-78 | the same for every state of every run from the start, with any limit of at least 1 |
| AtomicTask.SleepersCanBeWoken | utils/taskRunManager/atomicTask.go:65-78 | from every such state a sleeping caller is woken within five steps of threads already at work |
| AtomicTask.WaitReturnsAfterWork | utils/taskRunManager/atomicTask.go:44-53 | Wait returns if and only if no task is between its swap and its decrement |
| AtomicTask.SwapStartsIff | utils/taskRunManager/atomicTask.go:28-36 | a compare-and-swap starts exactly one task and ends the call if and only if the loaded count is below the limit and still the count; else the call goes on to wait |
| AtomicTask.RunCanStart | utils/taskRunManager/atomicTask.go:26-42 | from every reachable state a call of Run about to load a count below the limit can start its task with its next two steps |
| AtomicTask.SleepsIff | utils/taskRunManager/atomicTask.go:38-72 | a call sleeps if and only if the counter is full, for Run, or not zero, for Wait |
| AtomicTask.CallsEndOnlySo | utils/taskRunManager/atomicTask.go:26-53 | a call of Run goes on until it has started a task, and a call of Wait until it has loaded a zero; there is no other way out |
| AtomicTask.OneTaskPerRun | utils/taskRunManager/atomicTask.go:26-42 | in every run the tasks ever started are as many as the calls of Run that have returned |
| AtomicTask.CallersGoOn | utils/taskRunManager/atomicTask.go:26-72 | a thread inside a call can go on unless it sleeps or the lock is held |
| ResultCollector.SendFindsRoom | utils/taskRunManager/chanTask.go:72-82 | a task about to send finds the channel open and with room, so the default branch is never taken |
| ResultCollector.ChannelIsSafe | utils/taskRunManager/chanTask.go:37-88 | in every interleaving at most N values are sent, each the result of a different task, never after close; the channel is closed at most once; nothing is dropped |
| ResultCollector.DeliversAllItCan | utils/taskRunManager/chanTask.go:37-88 | when the collector has exited the channel was closed exactly once, and without cancellation min(N, number of ok outcomes) values were sent |
| CollectorOutcome.Outcome | utils/taskRunManager/chanTask.go:37-88 | for every run, in terms of what the task functions returned in it: at exit every task was called and has returned, the channel was closed once, the values sent are results of different tasks, and without cancellation there are min(N, number of results returned) of them |
| CollectorOutcome.ClosesEarly | utils/taskRunManager/chanTask.go:68-78 | in every run, once N results are counted the channel is closed or a task is about to close it, whoever is still running; it is never closed before the context is cancelled; and a task that came too late for a place cancels it |
| CollectorOutcome.ResultsCompete | utils/taskRunManager/chanTask.go:63-71 | a result is passed on unless a context is cancelled, and gets a place while one is left |
| CollectorOutcome.PoolIsKept | utils/taskRunManager/chanTask.go:19-29 | in every run no more tasks are under way than the pool has places |
| CollectorProgress.NeverStuck | utils/taskRunManager/chanTask.go:19-88 | with a pool of at least one, some step other than a receive or a cancellation is possible until the collector has exited |
| CollectorProgress.ExitIsBounded | utils/taskRunManager/chanTask.go:19-88 | no run contains more such steps than a bound computed from the state, so the collector exits |
| CollectorProgress.ExitsInTime | utils/taskRunManager/chanTask.go:37-88 | from the start, a collector of n tasks takes at most 12 n + 4 of them in any run |
| TimedCollector.ForwardsFaithfully | utils/taskRunManager/chanTask.go:90-132 | the deadline variant forwards a prefix of the results in order, loses none, closes exactly once when it ends, forwards all if the collector ended in time, and leaves the collector cancelled |
| TimedCollector.ForwarderGoesOn | utils/taskRunManager/chanTask.go:113-129 | the forwarder passes on what there is, and ends if and only if the inner channel is closed and empty or its context is cancelled |
| MQueue.MQueue.constructor | utils/Queue/mqueue.go:29-45 | a new queue is open, empty and well formed |
| MQueue.MQueue.LinksEnd | utils/Queue/mqueue.go:10-25 | following the links visits each live node once and ends: the list has no cycle |
| MQueue.MQueue.Close | utils/Queue/mqueue.go:48-53 | closing changes nothing but the status |
| MQueue.MQueue.GetNode | utils/Queue/mqueue.go:34-42 | a node from the pool, whatever the pool kept, is not live and leaves the pool |
| MQueue.MQueue.MoveEnds | utils/Queue/mqueue.go:70-81 | the three rewirings of an append all give the chain with the new node last, the tail being null for at most one node |
| MQueue.MQueue.Enqueue | utils/Queue/mqueue.go:58-86 | appends the value exactly when the queue is open, and else changes nothing; count, links, tail and pool stay right; the new node was pooled or fresh |
| MQueue.MQueue.Unlink | utils/Queue/mqueue.go:107-118 | taking the first node leaves a well-formed chain of the others |
| MQueue.MQueue.Dequeue | utils/Queue/mqueue.go:98-126 | takes the first element if there is one; reports empty and closed as they are; the node goes to the pool, cleared |
| MQueue.MQueue.Count | utils/Queue/mqueue.go:176-180 | the count is the length of the contents |
| QueueThreads.RunsKeepInv | utils/Queue/mqueue.go:48-173 | any number of threads: accepted = handed out + queued, in order; each element handed out is accounted for by one thread; a sleeper implies open and empty |
| QueueThreads.SleepsOnlyWhenOpenAndEmpty | utils/Queue/mqueue.go:131-173 | in every run a thread sleeps only while the queue is open and empty |
| QueueThreads.HandedOutOnceInOrder | utils/Queue/mqueue.go:98-173 | in every run elements leave in the order of acceptance, and no two calls get the same one |
| QueueThreads.AcceptsAllBeforeClose | utils/Queue/mqueue.go:48-126 | in every run the queue has accepted exactly the values of the enqueues before the first close, in order, of which the handed out ones are the first; it is open exactly if no close has come |
| QueueThreads.EnqueueAcceptsIffOpen | utils/Queue/mqueue.go:58-86 | an enqueue puts its value last in the queue and among the accepted if and only if the queue is open, and else changes nothing |
| QueueThreads.DequeueTakesFirst | utils/Queue/mqueue.go:90-126 | a dequeue that does not block takes the first element if there is one, and else reports whether the queue is closed |
| QueueThreads.TakeTakesFirst | utils/Queue/mqueue.go:131-173 | a blocking call takes the first element if there is one, ends on a closed and empty queue, and else goes to look whether to sleep |
| QueueThreads.CallsEndByKind | utils/Queue/mqueue.go:131-173 | whatever others do: DequeueWait ends with an element or a closed and empty queue; DequeueFunc goes on until told to stop or the queue is closed and empty |
| QueueThreads.SleepsIffOpenAndEmpty | utils/Queue/mqueue.go:131-173 | a thread falls asleep if and only if it finds the queue open and empty, and the answer of the processing function decides whether its call goes on |
| QueueThreads.NeverStuck | utils/Queue/mqueue.go:131-173 | in every reachable state a thread inside a blocking call can go on, unless it sleeps on an open and empty queue |
| SendQueues.RunsKeepInv | server/rabbitmq_product.go:24-79 | every step of producers, handlers, starters and closers keeps the invariant of all eight queues |
| SendQueues.RoundRobin | server/rabbitmq_product.go:42-44 | in every run the draws of concurrent producers go round the eight queues in turn, also across the wrap-around of the 64-bit counter |
| SendQueues.DeliverLands | server/rabbitmq_product.go:42-44 | a delivery puts the message last in the queue its producer drew, and among its accepted ones, if and only if that queue is open, and touches no other queue |
| SendQueues.AcceptsItsTurns | server/rabbitmq_product.go:24-79 | in every run, as a function of the draws, deliveries and closes alone: each queue has accepted exactly the messages whose turn it was, in the order of delivery, until a close came to it |
| SendQueues.HandlersGoOn | server/rabbitmq_product.go:58-79 | in every reachable state a handler can go on, unless it sleeps on an open and empty queue |
| SendQueues.FourHandlers | server/rabbitmq_product.go:58-79 | each of the eight queues gets handlers 0 to 3 and no other |
| SendQueues.OutsidersGoOn | server/rabbitmq_product.go:35-44 | producers never wait, and a close waits only for the end of the handlers |
| SendQueues.CloseReturnsDrained | server/rabbitmq_product.go:35-79 | in every interleaving, when a close returns every accepted message was passed to the processing function exactly once |
| SendQueuesShutdown.ShutdownIsBounded | server/rabbitmq_product.go:35-79 | once all queues are closed, no run contains more steps of the waited-for goroutines than a bound computed from the state |
| SendQueuesShutdown.ShutdownNeverStuck | server/rabbitmq_product.go:35-79 | until the end is announced one of those steps is possible, so the close returns |
| FlowLimit.RefillConserves | server/flow_limit.go:99-123 | a refill changes shards plus pool only by a reset of the pool |
| FlowLimit.GrantConserves | server/flow_limit.go:125-144 | a grant is between zero and the request and is exactly what the stock loses |
| FlowLimit.CallConserves | server/flow_limit.go:91-145 | what a whole call returns is exactly what shards and pool lose, apart from a reset of the pool |
| FlowLimit.GrantsIff | server/flow_limit.go:91-145 | a call gets at least one byte if and only if it wants one and its shard has one, or is empty while the burst is at least eight and the pool is not used up |
| FlowLimit.LimitedReaderAction.constructor | server/flow_limit.go:36-58 | rate and burst, 30720 and 102400000 if not positive; every one of the eight shards holds an eighth of the burst and the pool all of it |
| FlowLimit.LimitedReaderAction.UpdateParameter | server/flow_limit.go:66-83 | the new rate and burst, or their defaults; the pool is reset to the burst and the share to an eighth of it; the shards are left alone |
| FlowLimit.LimitedReaderAction.Refill | server/flow_limit.go:99-123 | the shard gets an eighth of the burst, or what it finds in the pool if that is less, where a new second finds the whole burst; the pool loses that; no other shard changes; it reports failure exactly when it finds nothing |
| FlowLimit.LimitedReaderAction.Draw | server/flow_limit.go:125-144 | the four branches grant the least of request, rate and balance |
| FlowLimit.LimitedReaderAction.GetReadSize | server/flow_limit.go:91-145 | a call grants the least of request, rate and balance, from the shard that the counter selects, where an empty shard first gets an eighth of the burst or what the pool has; the balance, the pool and the other shards afterwards; the stock is conserved |
| FlowLimitRuns.CarefulRunsKeepInv | server/flow_limit.go:91-145 | interleaved calls with each rate read a step of its own, clock ticks and harmless parameter changes keep the locks, the non-negative balances, the books, and that no call takes or returns more than it asked for or its shard had |
| FlowLimitRuns.Ledger | server/flow_limit.go:36-145 | in every run whose updates are harmless, and so in every run with no update between two rate reads of one grant: granted + balances (with what is deducted and about to be returned) + pool + discarded = initial stock + refills, no balance is negative, and no call returned more than it asked for or its shard had |
| FlowLimitGrants.GrantsAreLeast | server/flow_limit.go:91-145 | in every run with no update between two rate reads of one grant, whatever other threads do between its steps, a completed grant is the least of the request, the rate and the balance after refill |
| FlowLimitGrants.FixedGrantsAreLeast | server/flow_limit.go:91-145 | in every run with fixed parameters a completed grant is the least of the request, the configured rate and the balance after refill |
| FlowLimitGrants.RefilledBalance | server/flow_limit.go:99-126 | in every run, whatever others do before, in between and afterwards: a call that refills its shard grants from an eighth of the burst or what it found in the pool, whichever is less |
| FlowLimitGrants.KeptBalance | server/flow_limit.go:91-126 | in every run a call that finds its shard not empty grants from what it finds there |
| FlowLimitGrants.RequestStays | server/flow_limit.go:91-145 | through all steps of a call its request and its shard stay what they were |
| FlowLimitGrants.ShardsInTurn | server/flow_limit.go:93 | in every run the calls take the eight shards in turn, also across the wrap-around of the counter |
| FlowLimitGrants.RefillsByTheClock | server/flow_limit.go:99-106 | in every run a refill goes by the time that the clock shows when the pool is locked |
| FlowLimitGrants.NeverDeadlocked | server/flow_limit.go:91-145 | in every run, while some thread is inside a call one of them can go on: the lock of a shard and the lock of the pool never block each other for good |
| FlowLimitUpdates.CompletedGranting | server/flow_limit.go:125-144 | the rate reads of one grant in a row take from the shard, and return, what a single call does |
| FlowLimitUpdates.UpdateHarmlessIff | server/flow_limit.go:66-83 | an update in the middle of a grant leaves it with balanced books, no overdraft and no more than was asked for, if and only if the new rate is harmless at the point the grant has reached: before the second comparison the lesser of request and rate within the balance, before the deduction the rate within request and balance, before the return the rate that was deducted |
| FlowLimitUpdates.RightIffCareful | server/flow_limit.go:66-145 | for every run: wherever it stops, any grant in progress can complete with balanced books, no overdraft and no more than was asked for, if and only if every update came when it was harmless |
| FlowLimitUpdates.OverdraftRun | server/flow_limit.go:127-141 | a run in which a rate raised between the two comparisons lets a call take 50 bytes from a balance of 10 |
| FlowLimitUpdates.ExcessRun | server/flow_limit.go:138-144 | a run in which a rate raised from 5 to 9 between the second comparison and the deduction gives 9 bytes to a call that asked for 6, from a balance of 10 |
| FlowLimitUpdates.SkewedRun | server/flow_limit.go:143-144 | a run in which a rate raised between deduction and return deducts 5 bytes and grants 100, for a request of 50 |
| FlowLimitBound.RunsKeepBound | server/flow_limit.go:91-145 | grants of this second plus all that can still be granted in it stay within twice the burst, also across a refill with an outdated time |
| FlowLimitBound.GrantsPerSecond | server/flow_limit.go:91-145 | with fixed parameters and a clock that does not run backwards, no second sees grants of more than twice the burst |
| FlowLimitBound.GrantsSomethingIff | server/flow_limit.go:36-145 | with fixed parameters, some run from the start grants something if and only if the burst is at least eight bytes |
| ReaderValue.SoundIff | server/flow_limit.go:205-213 | handing out k bytes does not panic and keeps delivered + buffered = consumed if and only if k bytes are buffered; otherwise what is delivered is no prefix of what was consumed |
| ReaderValue.StaleBytes | server/flow_limit.go:211-213 | more than is buffered but within the buffer: the caller gets all good bytes and then stale ones, and the length goes below zero |
| ReaderValue.PanicsAtTheEnd | server/flow_limit.go:211 | when the buffered bytes end where the buffer ends, the slice panics if and only if more than they are handed out |
| ReaderValue.FaultIff | server/flow_limit.go:174-193 | when a call fails before the limiter is asked, and with what: cancelled first, never while something is buffered, else with the error from below or the end of the file |
| LimitedReader.LimitedReader.constructor | server/flow_limit.go:159-171 | a new reader has consumed, buffered and delivered nothing |
| LimitedReader.LimitedReader.Fill | server/flow_limit.go:182-188 | a refill takes one result from below, bytes that come with an error included |
| LimitedReader.LimitedReader.Take | server/flow_limit.go:211-213 | copying moves the next bytes of the buffer, in order, to the front of the caller's slice and nothing else |
| LimitedReader.LimitedReader.Deliver | server/flow_limit.go:197-214 | for any answer of the limiter: the lesser of grant and room is delivered, and exactly one byte when refused; it panics exactly past the end of the buffer, and is sound if and only if it delivers no more than is buffered |
| LimitedReader.LimitedReader.Prepare | server/flow_limit.go:175-193 | a call that is cancelled, or finds nothing below, fails without asking the limiter |
| LimitedReader.LimitedReader.Read | server/flow_limit.go:174-215 | for any answer of the limiter and any reader below: each outcome and its error; delivered + buffered = consumed is kept without a panic if and only if the call delivers no more than is buffered; otherwise it panics, or delivers bytes never consumed and leaves a negative length, with which every later call is an end of file |
| LimitedReader.LimitedReader.ReadUndisturbed | server/flow_limit.go:174-215 | with nobody between the reader and the limiter, the limiter is asked once for all that is buffered, its answer is taken from its shard and bounds what is delivered, and the call is always sound; a call that fails leaves the limiter alone |
| ReaderRuns.ReadersStaySound | server/flow_limit.go:91-215 | in every run of many readers and other callers on one limiter, with harmless parameter changes: for every reader, delivered bytes followed by buffered bytes are the bytes consumed, and no slice is out of bounds |
| ReaderRuns.BeginAsks | server/flow_limit.go:174-196 | in every such run a call that has or gets something asks the limiter for all that is buffered |
| ReaderRuns.FinishDelivers | server/flow_limit.go:197-214 | and then delivers the next bytes of the buffer: one after a refusal, else the lesser of grant and room |
| ReaderRuns.StaleRun | server/flow_limit.go:138-213 | a run in which a reader that got six bytes delivers them and three stale ones, because the rate is raised from 5 to 9 in the middle of its grant |
| ReaderRuns.NothingAfterwards | server/flow_limit.go:182-193 | in every run after that, the reader neither consumes nor delivers another byte |
| ShardedValue.HomeLookup | utils/Map/concurrentMap/map.go:57-59 | looking a key up in its shard is looking it up in the one map |
| ShardedValue.UnionOfSet | utils/Map/concurrentMap/map.go:71-77 | setting a key in its shard sets it in the one map and keeps the partition |
| ShardedValue.UnionOfRemove | utils/Map/concurrentMap/map.go:144-150 | removing a key from its shard removes it from the one map |
| ShardedValue.SizesAddUp | utils/Map/concurrentMap/map.go:121-130 | the sizes of the shards add up to the size of the one map |
| ConcurrentMap.ConcurrentMap.constructor | utils/Map/concurrentMap/map.go:30-39 | a new map is empty, for any sharding function |
| ConcurrentMap.ConcurrentMap.Get | utils/Map/concurrentMap/map.go:110-118 | refines lookup in one map |
| ConcurrentMap.ConcurrentMap.Set | utils/Map/concurrentMap/map.go:71-77 | refines setting in one map |
| ConcurrentMap.ConcurrentMap.Upsert | utils/Map/concurrentMap/map.go:86-94 | the callback sees the one map's value and its answer is stored there |
| ConcurrentMap.ConcurrentMap.SetIfAbsent | utils/Map/concurrentMap/map.go:97-107 | stores exactly when the key is absent, and says so |
| ConcurrentMap.ConcurrentMap.Remove | utils/Map/concurrentMap/map.go:144-150 | refines removal from one map |
| ConcurrentMap.ConcurrentMap.RemoveCb | utils/Map/concurrentMap/map.go:159-170 | the key is removed if and only if the callback says so on the one map's value |
| ConcurrentMap.ConcurrentMap.Pop | utils/Map/concurrentMap/map.go:173-181 | returns and removes the one map's value |
| ConcurrentMap.ConcurrentMap.MSet | utils/Map/concurrentMap/map.go:61-68 | the loop adds all pairs, in any order |
| ConcurrentMap.ConcurrentMap.Count | utils/Map/concurrentMap/map.go:121-130 | the loop counts the keys of the one map, with no writer in between |
| CountRuns.CountUnderWriters | utils/Map/concurrentMap/map.go:121-130 | with writers in between: the count is the size of the map at the end, plus the keys that left a shard after it was read, minus those that came; so it is that size if and only if as many came as left |
| CountRuns.CountBetween | utils/Map/concurrentMap/map.go:121-130 | with only inserts, or only removals, in between, the count lies between the sizes before and after, and is the size after if and only if none came to, or left, a shard already read |
| CountRuns.PhantomCount | utils/Map/concurrentMap/map.go:121-130 | for any map: if a key of the first shard is removed after that was read and a new key is set in another shard, the count is one more than the map has at any moment of the run |
| CountRuns.WritesTakeEffect | utils/Map/concurrentMap/map.go:71-150 | in every interleaving the shards stand for the one map with the writes of the run applied in order |
| MapSnapshot.FillerNeverBlocks | utils/Map/concurrentMap/map.go:237-247 | a filler with a pair to send finds room in its channel |
| MapSnapshot.ForwarderNeverBlocks | utils/Map/concurrentMap/map.go:205-214 | a forwarder finds room in the common channel however slow the consumer is |
| MapSnapshot.WalkNeverStuck | utils/Map/concurrentMap/map.go:227-267 | until the common channel is closed some thread of the walk can go on |
| SnapshotProgress.WalkIsBounded | utils/Map/concurrentMap/map.go:205-267 | in every run, whatever the writers do, the walk takes at most three steps per pair of its snapshots, three per shard and two more, so it ends |
| MapSnapshot.DeliversEachPairOnce | utils/Map/concurrentMap/map.go:227-267 | in every interleaving with writers, once closed each shard's snapshot was delivered pair by pair, each exactly once |
| MapSnapshot.ItemsAreTheSnapshots | utils/Map/concurrentMap/map.go:270-279 | what Items collects is the union of what the shards held when they were locked |
| MapSnapshot.ItemsAreTheMap | utils/Map/concurrentMap/map.go:270-279 | with no writer in between it is the map |
| MapSnapshot.SnapshotsAreLastWrites | utils/Map/concurrentMap/map.go:227-247 | in every run, as a function of its writes and locks alone: a shard holds what was last written to it, and its snapshot is what it held when the walk locked it |
| Registry.UserContexts.Add | server/manager.go:155-170 | joins the user's live context or creates one; every context stays accounted for; refines the value function that the runs use |
| Registry.UserContexts.Delete | server/manager.go:172-188 | the last holder of a live context removes and cancels it; a stale holder changes no context and no entry; the count never goes below zero; refines the value function that the runs use |
| Registry.UserContexts.Pop | server/manager.go:191 | takes the context out of the map, owing its cancellation |
| Registry.UserContexts.Cancel | server/manager.go:193-196 | pays that debt |
| Registry.UserContexts.CloseUserConnections | server/manager.go:190-199 | removes and cancels exactly the user's context; an error exactly when there is none |
| Registry.UserContexts.LiveOrCancelled | server/manager.go:155-199 | with no close halfway, every context ever created is registered, not cancelled and counts its holders, or is out of the map and cancelled |
| Registry.IpConnections.AddIpConnCount | server/manager.go:118-140 | admits exactly when below the limit (or first, or unlimited); the entry counts admitted minus released; the limit stays respected |
| Registry.IpConnections.ReduceIpConnCount | server/manager.go:142-153 | releases one; the entry disappears exactly when none is left |
| RegistryRuns.RunsKeepAccounts | server/manager.go:155-199 | every step of connections and of closers, whose close is two steps, keeps all contexts accounted for |
| RegistryRuns.LiveOrCancelled | server/manager.go:155-199 | in every run a context in the map is not cancelled and its count is the number of connections holding it, at least 1; one out of the map is cancelled or about to be |
| RegistryRuns.StaleLeaveChangesNothing | server/manager.go:172-188 | in every run a leave from an outdated context changes no context and no entry, and no leave makes the unsigned count wrap around |
| RegistryRuns.JoinSharesOrCreates | server/manager.go:155-170 | in every reachable state a connection joins its user's context, counted once more, or a new one that is not cancelled |
| RegistryRuns.LeaveGivesBack | server/manager.go:172-188 | a connection leaves once; the last one of a live context takes it out of the map and cancels it, any other leaves it there |
| RegistryRuns.CloseTakesOutAndCancels | server/manager.go:190-199 | a close takes the user's context out of the map, if there is one, and goes on to cancel that one |
| RegistryRuns.CancelsInTheEnd | server/manager.go:190-199 | whatever happens after a close has taken a context out, the close can cancel it, and once it has, it stays cancelled |
| RegistryRuns.NothingLeaks | server/manager.go:155-199 | in every run, when all connections have left and no close is halfway, the map is empty and every context cancelled |
| RegistryRuns.CountsAreRight | server/manager.go:118-153 | in every run the entry of an ip exists exactly while admitted connections are not released, is their number and stays within a fixed limit |
| RegistryRuns.LetInIff | server/manager.go:118-153 | in every run a connection is let in if and only if none of its ip is inside, or there is no limit, or fewer are inside than the limit |
| Socks5Wire.AddrReadsBack | utils/socks5/func.go:170-221 | every readable address reads back from its encoding, leaving what follows |
| Socks5Wire.AddrSplit | utils/socks5/func.go:170-221 | an accepted stream is the encoding of the address it yields followed by the rest |
| Socks5Wire.DestExact | utils/socks5/func.go:72-92 | ReadDestAddr accepts exactly version 5, two arbitrary bytes and an encoded address |
| Socks5Wire.DestInBytes | utils/socks5/func.go:72-221 | the same in plain bytes: a 5, two bytes of any value, then 1 and four bytes, or 4 and sixteen, or 3, a length and a name, and the port, higher byte first |
| Socks5Wire.DestRefusals | utils/socks5/func.go:72-221 | the exact condition and the bytes read for each refusal: another version, another kind of address, too few bytes |
| Socks5Wire.ReplyReadsBackIff | utils/socks5/func.go:125-166 | ReadDestAddr recovers the address of a reply, up to normal form, and consumes exactly the reply, if and only if the name has at most 255 bytes and the port 16 bits |
| Socks5Wire.ReplyInBytes | utils/socks5/func.go:125-166 | the reply for every address and none, in plain bytes |
| Socks5Wire.Ipv4InEitherForm | utils/socks5/func.go:141-144 | for all a, b, c, d and every port, the 4-byte and the mapped 16-byte form give the same ten bytes |
| Socks5Wire.LoginExact | utils/socks5/func.go:223-264 | GetUserPassword accepts exactly the encodings of a login |
| Socks5Wire.LoginInBytes | utils/socks5/func.go:223-264 | the same in plain bytes, with the exact condition and the bytes read for each refusal |
| Socks5.Conn.ReadFull | utils/socks5/func.go:76 | the read loop yields the next n bytes for every chunking, or consumes everything |
| Socks5.ReadAddrSpec | utils/socks5/func.go:170-221 | outcome and remaining bytes are a function of the bytes, not of the chunks |
| Socks5.ReadDestAddr | utils/socks5/func.go:72-92 | the same for the whole request |
| Socks5.GetUserPassword | utils/socks5/func.go:223-264 | outcome and remaining bytes of the login are a function of the bytes, after announcing the method with 5, 2 |
| Socks5.Layout | utils/socks5/func.go:155-162 | the byte buffer holds 5, the reply, 0, kind, body and the port, higher byte first |
| Socks5.ChooseForm | utils/socks5/func.go:127-153 | kind, body and port are those of the address in the form in which it is sent; fails exactly when there is none |
| Socks5.SendReply | utils/socks5/func.go:125-166 | writes the reply byte by byte, whole: 0.0.0.0 and port 0 for no address; a name behind its length, whatever the address; an IPv4 address as its four bytes whether it is held in four or in sixteen; any other sixteen bytes as they are; nothing for an address of another length |
| SniffNotice.RunsKeepInv | server/sniffing/conn.go:45-97 | every step of the reader, the writers and the closers keeps buffer, flags and callback consistent |
| SniffNotice.CallsBackOnce | server/sniffing/conn.go:74-97 | in every interleaving the callback is called at most once, with the initial bytes and the first k reads for some k |
| SniffNotice.NothingKeptAfterwards | server/sniffing/conn.go:57-72 | once the buffer was taken or dropped, no run accumulates another read |
| SniffNotice.NoticeCallsBack | server/sniffing/conn.go:74-97 | if the wrapper is not closed, the writer that gave the notice returns only after the callback |
| SniffNotice.FirstWriterCallsBack | server/sniffing/conn.go:57-97 | in every run the first writer to come through an open wrapper, with no read in progress, calls back with the initial bytes and everything read so far |
| SniffNotice.ReadIsKept | server/sniffing/conn.go:57-72 | before the notice a read is added to the buffer, which then holds everything read so far |
| AuthRuns.UndisturbedLogin | server/auth.go:112-161 | asking the cache, fetching and remembering in a row are the login of one call, whose verdict is spelled out at `AuthCache.Ipv6Service.Valid` |
| AuthCache.CheckIsRight | server/auth.go:139-160 | the check of a record gives the first reason to refuse, or the address, each under its exact condition |
| AuthRuns.VerdictsAreRight | server/auth.go:112-161 | in every run every login that has ended, refused or accepted, got the verdict that is right for what the store held for its user at a moment at most 30 seconds plus the longest fetch-to-fill time earlier |
| AuthRuns.RightLoginGetsIn | server/auth.go:125-160 | whatever happens in between: a login whose fetch finds its name and password with an address and no ban ends accepted with that address, and the record is cached from its last step on |
| AuthRuns.HitEndsAtOnce | server/auth.go:118-123 | a login that the cache answers ends at once, with the verdict that is right for the cached record |
| AuthRuns.RecordLasts | server/auth.go:155-157 | in every run a cached record stays for 30 seconds, unless a later one takes its place |
| AuthRuns.StoreHoldsLastWrite | server/rabbitmq_consume.go:234-398 | in every run the store holds for each user what the last event about them wrote; logins do not touch it |
| AuthRuns.AcceptedWasStored | server/auth.go:112-161 | in every run of logins whose cache lookup, fetch and cache fill are separate steps: an accepted login had a matching record, not banned, that the store held at most 30 seconds plus the longest fetch-to-fill time earlier |
| AuthRuns.PromptLoginsTakeNoTime | server/auth.go:126-157 | if no time passes between fetch and fill, that longest time is zero |
| AuthRuns.PromptAcceptedWasStored | server/auth.go:112-161 | so in every such run an accepted login had a matching record, not banned, that the store held at most 30 seconds earlier |
| AuthRuns.BanTakesEffect | server/auth.go:112-161 | in every run, more than 30 seconds after a moment that follows a ban and at which no login of the user is between fetch and fill, no step lets the user in until an acceptable record is set |
| AuthRuns.BanThreshold | server/auth.go:112-161 | after such a moment the user can be let in with a given delay if and only if the delay is at most 30 seconds |
| AuthRuns.SlowLoginOutlivesBan | server/auth.go:126-157 | a login in flight at the ban that takes any time to fill the cache lets the user in for up to 30 seconds after that |
| AuthCache.BatchBans | server/rabbitmq_consume.go:374-381 | a batch of bans leaves every user in it banned, also with repeated names |
| AuthRuns.BatchIsRun | server/rabbitmq_consume.go:362-398 | a batch does to the store what its single bans do one after the other |
| AuthCache.SetAllStores | server/rabbitmq_consume.go:258-289 | after a batch the last record of each user in it is stored |
| AuthCache.SetAllSpares | server/rabbitmq_consume.go:258-289 | a batch touches no user that it does not name |
| AuthCache.Ipv6Service.Valid | server/auth.go:112-161 | one login that nobody interferes with, against the cached record if it is not older than 30 seconds and else the stored one: it is accepted with an address if and only if the password is not the dynamic one and the record has this name, this password and this address, not empty and not banned; one such condition for each reason to refuse, in the order of the code; only an accepted miss is cached, from the moment of the fill, and a hit does not renew |
| AuthCache.Ipv6Service.SetUserData | server/rabbitmq_consume.go:234-256 | stores the record; refuses a missing record or name |
| AuthCache.Ipv6Service.SetUserDataBatch | server/rabbitmq_consume.go:258-289 | the loop stores all records; refuses an empty batch |
| AuthCache.Ipv6Service.DeleteUserData | server/rabbitmq_consume.go:291-309 | deletes the record; refuses a missing record or name |
| AuthCache.Ipv6Service.DeleteUserDataBatch | server/rabbitmq_consume.go:311-337 | the loop deletes every user named and no other |
| AuthCache.Ipv6Service.BanUserData | server/rabbitmq_consume.go:339-360 | stores the banned record and cancels the user's connections |
| AuthCache.Ipv6Service.BanUserDataBatch | server/rabbitmq_consume.go:362-398 | stores all banned records and cancels the connections of every user named |

## Left out

- HTTP, SOCKS and Shadowsocks connection handlers and accept loops: socket plumbing around the parts modelled here.
- The AMQP client, the Redis client, Nacos, configuration, logging and alarms: input and output; the store is a plain map and its calls do not fail.
- The IPv4 login, the dynamic IPv6 path and the Shadowsocks password lookup: the dynamic password leads to a verdict of its own and is not followed.
- The dial failure tracker, the task consumer manager and the regular expressions for domains: easier repeats or library calls.
- Deadlines and write errors of the SOCKS5 connection: reads fail only at the end of the stream, writes do not fail.
- ReadVersion and ReadMethods of the SOCKS5 handshake: the same reads without an address.
- The hash fnv32: the sharding function is arbitrary, so every hash is covered.
- Iter with an unbuffered channel, Keys, IterCb and the JSON forms of the map: repeats of the buffered walk.
- Clear of the map: it removes what the walk yields; with writers in between it promises nothing.
- ConcurrentMap.ConcurrentMap.Count: states the count when no writer runs between the shards it reads; `CountRuns.CountUnderWriters` is the statement with writers.
- MQueue.MQueue.Enqueue: the 64-bit count is an unbounded integer, because the queue would have to hold 2^63 elements to wrap.
- Registry.UserContexts.Add: the 64-bit holder count is a natural number, and the parent context is not modelled, so that cancelled means cancelled individually.
- Registry.UserContexts.Delete: asks that the caller holds the context and names its own key, as every caller does.
- LimitedReader.LimitedReader.Read: the wait of 33 milliseconds after a refusal is not modelled, only what follows it.
- LimitedReader.LimitedReader.ReadUndisturbed: asks for a sound reader and nobody between it and the limiter; `LimitedReader.LimitedReader.Read` and `ReaderRuns.ReadersStaySound` are the statements without that.
