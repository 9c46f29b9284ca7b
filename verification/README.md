# Verification of four exercises

This project models four programs of the repository and proves properties of them, for all
inputs, all schedules and all reachable states.

* **Counting semaphore and worker shutdown** (`sem_thds/semaphore.cpp`). `SemaphoreMonitor` is the
  monitor behind `Semaphore`: every lock, unlock, park, wake-up and notification of every thread is
  a step of its own, spurious wake-ups included (section 30.5.1 of ISO/IEC 14882:2011), and any
  thread may call `Signal` or `Wait` at any time. `WorkerShutdown` is the program around it, with T
  workers and M work signals instead of 8 and 50000. The classes `Semaphore` and `Process` hold the
  mutable fields; their methods are the steps.
* **Chat room** (`AnonymousChat/chat`). `ChatRoom` is the broadcast protocol of the room goroutine
  and the reader and writer goroutines of every connection; `ChatProgress` says when it blocks and
  how long it can run, `ChatStall` on which inputs it can block; `ChatServer` is the object whose
  methods are the steps, and a whole broadcast.
* **Header parser and receive buffer** (`Socket&Http/SimpleHttp.cpp`). `Tokens` is the pure
  tokeniser, `HeaderParser` runs `Split` and the header loop on an array, `RecvBuffer` is the write
  callback, `HeaderRoundTrip` puts them together (section 5 of RFC 9112).
* **Process supervisor** (`Socket&Http/honorguard.cpp`). `Supervisor` has the handlers for SIGCHLD
  and SIGTERM and what a run of signals does to the record of children.

A protocol is a state datatype, a predicate saying which steps are enabled, a function for their
effect and a predicate `Runs` for the schedules that lead from one state to another. An invariant is
proved to be kept by every step; the theorems speak of every state that some run reaches. A method
of a class that makes a step is proved to change the fields exactly as that function does and to keep
the invariant. `Totals` counts threads and clients; `Wrappers` is the option type.

Where the code does not do what one would expect of it, the model follows the code:

* the header loop drops exactly one byte behind the colon, while RFC 9112 allows any whitespace
  there, or none (`HeaderRoundTrip.OneByteDroppedMatchesStandard` says exactly when that is right),
  and a line that ends with its first colon makes it throw (`HeaderParser.ThrowsExactly`,
  `HeaderRoundTrip.EmptyFieldThrows`);
* a write that ends exactly at the capacity of the receive buffer has no room for its terminator
  (`RecvBuffer.LandingShowsInSizes` says which chunk sizes do that, `RecvBuffer.LandingHappens` has
  two instances);
* the supervisor does not leave its loop exactly when every child is reaped. It never leaves after a
  failed fork, after a second SIGTERM that found children on record, or when SIGTERM comes with no
  child on record; and since the SIGTERM handler is installed before the children are started, it
  can leave early, with a child started behind a SIGTERM still running
  (`Supervisor.LeavesInGeneral` and `Supervisor.LeavesExactlyWhen` say when it may leave in terms
  of the signals received; `Supervisor.NeverLeaves`, `Supervisor.FailedForkHangs`,
  `Supervisor.SecondSigTermHangs`, `Supervisor.NoChildrenNoExit` and
  `Supervisor.LateStartLeavesEarly` are the failing cases);
* one client whose writer has failed can block the whole chat room for good. Some run does that if
  and only if there are at least 258 messages on all the sockets together
  (`ChatProgress.BlockedExactlyWhenStalled`, `ChatStall.StallsExactlyWhen`).

## Model

| member | source | states |
|---|---|---|
| SemaphoreMonitor.NoLostWakeup | sem_thds/semaphore.cpp:23-37 | In every run of any clients, while a thread is parked the count is at most the number of threads woken and not re-tested, signallers that incremented and have not notified, and waiters about to decrement; with none of these a positive count means nobody is parked |
| SemaphoreMonitor.TokenConservation | sem_thds/semaphore.cpp:20-41 | Initial count plus increments equals count plus decrements plus whole wraps of 2^64, exactly so while fewer than 2^64 tokens were issued; one thread at most is inside the mutex; no decrement happens at zero |
| SemaphoreMonitor.StepKeepsInv | sem_thds/semaphore.cpp:23-37 | Mutual exclusion, positive count for decrementers, covered wake-ups and token balance are kept by every step of every thread |
| SemaphoreMonitor.NotifyKeepsWakeups | sem_thds/semaphore.cpp:28 | Notifying after the unlock hands the signaller's claim on a token to the woken thread |
| SemaphoreMonitor.SpuriousWakeupRetests | sem_thds/semaphore.cpp:33-35 | A parked thread that wakes by itself locks the mutex and re-tests: with a token there it goes on to decrement, without one it parks again and nothing has changed |
| SemaphoreMonitor.WaitTests | sem_thds/semaphore.cpp:31-35 | A call of Wait takes the mutex and parks at once, with the mutex free again, exactly when the count is zero |
| SemaphoreMonitor.WaitTakesOneToken | sem_thds/semaphore.cpp:31-37 | A call of Wait that finds a token takes that one, returns, and changes nothing else |
| SemaphoreMonitor.SignalAddsOneToken | sem_thds/semaphore.cpp:23-29 | A call of Signal adds one modulo 2^64, wakes one parked thread, any one, if there is one, and changes nothing else |
| SemaphoreMonitor.SignalReleasesParked | sem_thds/semaphore.cpp:23-37 | A signal to a parked thread gets it through Wait, count and mutex being as before |
| SemaphoreMonitor.HeldUpExactlyWhen | sem_thds/semaphore.cpp:23-37 | Inside a call a thread is held up if and only if it is parked, or wants the mutex while somebody has it; otherwise it has one next step, up to whom it notifies |
| SemaphoreMonitor.Semaphore.constructor | sem_thds/semaphore.cpp:20 | A new semaphore holds the given count and satisfies the invariant |
| SemaphoreMonitor.Semaphore.EnterSignal | sem_thds/semaphore.cpp:23 | A thread outside, whatever the others do, may start a call of Signal |
| SemaphoreMonitor.Semaphore.EnterWait | sem_thds/semaphore.cpp:31 | A thread outside, whatever the others do, may start a call of Wait |
| SemaphoreMonitor.Semaphore.LockMutex | sem_thds/semaphore.cpp:25-32 | Locking, also again after a wake-up: no other thread is inside |
| SemaphoreMonitor.Semaphore.Increment | sem_thds/semaphore.cpp:26 | The count goes up by one, or wraps |
| SemaphoreMonitor.Semaphore.UnlockMutex | sem_thds/semaphore.cpp:27-37 | Leaving either lock scope leaves nobody inside; a signaller has still to notify |
| SemaphoreMonitor.Semaphore.NotifyOne | sem_thds/semaphore.cpp:28 | Some parked thread is woken, or nobody was parked |
| SemaphoreMonitor.Semaphore.TestCount | sem_thds/semaphore.cpp:33-35 | Zero parks the thread and frees the mutex in one step; otherwise it goes on, still holding it |
| SemaphoreMonitor.Semaphore.Decrement | sem_thds/semaphore.cpp:36 | The count goes down by one, never below zero |
| SemaphoreMonitor.Semaphore.SpuriousWakeup | sem_thds/semaphore.cpp:34 | A parked thread may wake up by itself, and the invariant still holds |
| SemaphoreMonitor.Semaphore.Wake | sem_thds/semaphore.cpp:28 | The same notification with the woken thread given: it wakes, the notifier is outside, and no wake-up is lost |
| WorkerShutdown.ExitTokensSuffice | sem_thds/semaphore.cpp:53-65 | Lines printed never exceed work signals; once the flag is up, tokens present and exit signals to come suffice for all workers that must still pass Wait |
| WorkerShutdown.ShutdownReleasesEveryone | sem_thds/semaphore.cpp:60-89 | A run has nothing left but spurious wake-ups exactly when main has joined every worker; then every worker has exited, and the tokens left are exactly the work signals not printed |
| WorkerShutdown.RunsAreBounded | sem_thds/semaphore.cpp:45-89 | A run has at most 21 T + 15 M + 5 steps and four more for each spurious wake-up |
| WorkerShutdown.SpuriousWakeupsAreFree | sem_thds/semaphore.cpp:33-35 | Without a token a parked worker may wake by itself any number of times, three steps each, and the program is as before, so runs have no bound that leaves spurious wake-ups out |
| WorkerShutdown.CanAlwaysFinish | sem_thds/semaphore.cpp:60-69 | From every reachable state some continuation without spurious wake-ups gets main through its last join |
| WorkerShutdown.NextAction | sem_thds/semaphore.cpp:23-89 | Before main has finished, a step other than a spurious wake-up is enabled, and this is one |
| WorkerShutdown.QuietMeansNobodyParked | sem_thds/semaphore.cpp:31-37 | With main joining, if all workers are parked or gone then none is parked |
| WorkerShutdown.ReadExitKeepsAccounts | sem_thds/semaphore.cpp:81-84 | A worker that goes on to print does so on the strength of a work signal of its own |
| WorkerShutdown.StepKeepsGood | sem_thds/semaphore.cpp:45-89 | Positions of main and workers, tokens issued, Waits completed, lines printed and exit credit stay consistent under every step |
| WorkerShutdown.Process.constructor | sem_thds/semaphore.cpp:45-48 | At the start no worker runs and the semaphore is empty |
| WorkerShutdown.Process.EnterWait | sem_thds/semaphore.cpp:81 | A worker at the head of its loop calls Wait |
| WorkerShutdown.Process.SpawnNext | sem_thds/semaphore.cpp:49-51 | The next worker starts, or, with all started, main goes on to the work loop; the program's invariant holds |
| WorkerShutdown.Process.SignalNext | sem_thds/semaphore.cpp:53-65 | Main enters Signal once more, or leaves the loop exactly after M work signals or T exit signals |
| WorkerShutdown.Process.NotifyAndReturn | sem_thds/semaphore.cpp:28-29 | Main's notification wakes a parked worker if there is one, ends the call of Signal and counts it |
| WorkerShutdown.Process.RaiseExitFlag | sem_thds/semaphore.cpp:60 | The flag goes up and the exit loop starts |
| WorkerShutdown.Process.JoinNext | sem_thds/semaphore.cpp:67-69 | The join loop; behind it count plus lines printed is the number of work signals |
| WorkerShutdown.Process.UnlockAndReturn | sem_thds/semaphore.cpp:37 | Leaving Wait puts the worker before its exit test |
| WorkerShutdown.Process.TestExitFlag | sem_thds/semaphore.cpp:82-84 | The worker leaves exactly when the flag is up; otherwise fewer lines than work signals are out |
| WorkerShutdown.Process.PrintWorkLine | sem_thds/semaphore.cpp:85-86 | One more line, never more than work signals |
| WorkerShutdown.Process.StepInCall | sem_thds/semaphore.cpp:23-37 | A step inside Signal or Wait, by any thread, changes nothing but the semaphore |
| WorkerShutdown.Process.Perform | sem_thds/semaphore.cpp:23-89 | Any enabled step of any thread keeps the program's invariant |
| WorkerShutdown.Process.RunToEnd | sem_thds/semaphore.cpp:45-89 | From any valid state, taking one enabled step after the other ends with main finished, every worker gone, and every work signal either printed or left in the count |
| ChatRoom.TotalOrderDelivery | AnonymousChat/chat/room.go:44-90 | What a client's writer has written is a prefix of the room log between its join and its leave; written, held by the writer, queued and still owed by the broadcast make up that slice; the queue holds at most 256 |
| ChatRoom.CompleteUnlessWriteFailed | AnonymousChat/chat/client.go:31-39 | A client that left, with its writer returned, was written its whole slice if and only if the writer drained its channel |
| ChatRoom.ClientsAgreeOnOrder | AnonymousChat/chat/room.go:56-63 | Any two clients have the same message at the same place of the one log |
| ChatRoom.PerSenderOrder | AnonymousChat/chat/client.go:22-28 | The log's messages of one sender, the one waiting on forward and the unread input are exactly what was on its socket, in order |
| ChatRoom.NoChannelPanic | AnonymousChat/chat/room.go:47-63 | No run closes a channel twice or sends on a closed one; members are the clients between join and leave; a channel is closed exactly from the leave on |
| ChatRoom.FanOutExactlyOnce | AnonymousChat/chat/room.go:56-63 | When a broadcast ends, whatever the range order and the other goroutines' steps, each member at its start has been sent the message exactly once, nobody else anything, and membership is unchanged |
| ChatRoom.AnyRangeOrder | AnonymousChat/chat/room.go:60-63 | With room in every member's channel the range loop can visit the members in any order, and all orders lead to the same state |
| ChatRoom.BroadcastFreezes | AnonymousChat/chat/room.go:60-63 | During a broadcast nobody joins, leaves or is heard |
| ChatRoom.StepKeepsInv | AnonymousChat/chat/room.go:44-90 | Every step of every goroutine keeps the room's, every client's and every sender's accounts |
| ChatProgress.BlockedExactlyWhenStalled | AnonymousChat/chat/room.go:56-63 | Mid-broadcast the room is blocked for good if and only if the current target's writer has returned and its queue holds 256; then membership and log never change again |
| ChatProgress.SendGoesThrough | AnonymousChat/chat/client.go:31-39 | Otherwise at most two steps of the target's own goroutines and the push complete the send |
| ChatProgress.RunsEndDoneOrJammed | AnonymousChat/chat/room.go:44-90 | No step is possible exactly when all connections are done, or the room is stalled and everyone else waits for it or is done |
| ChatProgress.RunsAreBounded | AnonymousChat/chat/room.go:44-90 | N connections with M messages in all take at most 5 N + (4 N + 3) M steps |
| ChatStall.StallsExactlyWhen | AnonymousChat/chat/room.go:56-63 | Some run stalls the room on a client with a failed writer if and only if the sockets hold at least 258 messages in all, however distributed |
| ChatStall.StallNeedsMessages | AnonymousChat/chat/room.go:56-63 | A stalled room has taken at least 258 messages, so there were as many on the sockets |
| ChatStall.StalledEndsJammed | AnonymousChat/chat/room.go:44-90 | A stalled room can always be run on until all other goroutines wait for it or are done |
| ChatServer.Server.constructor | AnonymousChat/chat/room.go:34-42 | A new room has no clients and is idle |
| ChatServer.Server.ReceiveJoin | AnonymousChat/chat/room.go:47-50 | The handler becomes a member at the current end of the log; nothing else changes |
| ChatServer.Server.ReceiveLeave | AnonymousChat/chat/room.go:51-55 | The client is no member any more, its channel, open until now, is closed, and nothing panics |
| ChatServer.Server.ReceiveForward | AnonymousChat/chat/room.go:56-59 | The stamped message is appended to the log and is to be sent to all present members |
| ChatServer.Server.NextTarget | AnonymousChat/chat/room.go:60 | The next target is some member not visited yet; without one the room is idle again |
| ChatServer.Server.PushToTarget | AnonymousChat/chat/room.go:61-70 | The send goes through if and only if fewer than 256 messages are in the channel, where the message is then the last, and never panics |
| ChatServer.Server.Broadcast | AnonymousChat/chat/room.go:56-63 | With no other goroutine moving, the range loop reaches its end if and only if every member's channel has room, and otherwise blocks on a full one; each member was sent or is still owed the message once, nobody else anything |
| ChatServer.Server.GoWrite | AnonymousChat/chat/room.go:88-89 | The handler starts its writer and becomes the reader |
| ChatServer.Server.ReadMessage | AnonymousChat/chat/client.go:22-28 | One message towards forward, or an error that ends the reader |
| ChatServer.Server.ReceiveFromSend | AnonymousChat/chat/client.go:33 | The writer takes the head of its channel, ends on a closed and empty one, or stays blocked |
| ChatServer.Server.WriteMessage | AnonymousChat/chat/client.go:34-37 | The held message is written, or lost and the writer returns |
| Tokens.TokensAreTheMaximalRuns | Socket&Http/SimpleHttp.cpp:217-237 | The tokens are exactly the maximal non-empty delimiter-free runs, in order |
| Tokens.TokenizeSeparated | Socket&Http/SimpleHttp.cpp:228-235 | Tokenising distributes over a delimiter |
| HeaderParser.SkipDelimiters | Socket&Http/SimpleHttp.cpp:222 | The end of the leading delimiters |
| HeaderParser.FindDelimiter | Socket&Http/SimpleHttp.cpp:227-230 | The first delimiter, or the terminator |
| HeaderParser.Split | Socket&Http/SimpleHttp.cpp:217-237 | Nothing and no change when only delimiters are left; otherwise the first token, cut off by overwriting the one byte behind it, and a save position from which the remaining tokens follow |
| HeaderParser.CopyString | Socket&Http/SimpleHttp.cpp:193 | The line is the C string at the token |
| HeaderParser.ColonAt | Socket&Http/SimpleHttp.cpp:194 | The first colon, or the length when there is none |
| HeaderParser.AddLine | Socket&Http/SimpleHttp.cpp:193-198 | A line without colon changes nothing, one that ends with its first colon throws, any other sets its name to what follows one byte behind the colon |
| HeaderParser.FieldSetsValue | Socket&Http/SimpleHttp.cpp:193-198 | A line with any byte behind its first colon sets its name to what follows that byte and leaves every other entry |
| HeaderParser.BeautifyHeader | Socket&Http/SimpleHttp.cpp:189-201 | The header loop ends, hands exactly the tokens of the buffer's text to the map in order, up to the first line that throws, and changes the buffer only by NUL behind each token up to that line |
| HeaderParser.CutsAreTokenEnds | Socket&Http/SimpleHttp.cpp:231-234 | The bytes that changed are exactly those right behind a token, and they are NUL |
| HeaderParser.ThrowsExactly | Socket&Http/SimpleHttp.cpp:194-198 | Parsing throws if and only if some line has its first colon as its last byte |
| HeaderRoundTrip.HeadersComeBack | Socket&Http/SimpleHttp.cpp:141-201 | Rendering any status lines and fields, with any byte between colon and value, and parsing them back yields every name with its last value, whatever line ends and bytes follow |
| HeaderRoundTrip.ReceivedHeadersComeBack | Socket&Http/SimpleHttp.cpp:165-201 | The same when the block arrives in any chunks of safe sizes |
| HeaderRoundTrip.OneByteDroppedMatchesStandard | Socket&Http/SimpleHttp.cpp:193-198 | Parsing a field line enters the standard's field value if and only if a byte follows the colon, it is a space or a tab, and the rest neither starts nor ends with one |
| HeaderRoundTrip.HeaderAddConforms | Socket&Http/SimpleHttp.cpp:141-144 | What HeaderAdd writes means the given value by the standard if and only if the value neither starts nor ends with a space or a tab; the header loop gives it back in any case |
| HeaderRoundTrip.EmptyFieldThrows | Socket&Http/SimpleHttp.cpp:193-198 | A buffer that starts with a field whose line ends right behind the colon makes parsing throw, with the headers as they were |
| RecvBuffer.WritesKeepBuffer | Socket&Http/SimpleHttp.cpp:165-179 | Over any writes the buffer holds the accepted chunks in order, within its capacity; all terminators were in bounds if and only if no accepted write landed exactly on the capacity; where every reallocation fails nothing changes |
| RecvBuffer.WriteGrowsOnlyWhenFull | Socket&Http/SimpleHttp.cpp:170-179 | A chunk that fits is stored in the same block whether or not memory is left; one that does not is refused without memory, and otherwise makes the block one byte larger than its new contents |
| RecvBuffer.FittingNeedsNoMemory | Socket&Http/SimpleHttp.cpp:170-179 | While the chunks fit into the block together nothing is refused, however little memory is left |
| RecvBuffer.MemoryAcceptsAll | Socket&Http/SimpleHttp.cpp:170-179 | With memory enough nothing is refused |
| RecvBuffer.WithoutMemoryBlockStays | Socket&Http/SimpleHttp.cpp:171-172 | Without memory the block keeps its size and what it holds, and stores nothing when no chunk fits |
| RecvBuffer.LandingShowsInSizes | Socket&Http/SimpleHttp.cpp:170-178 | Which writes land on the capacity depends on the chunk sizes alone: filling the first 512 bytes to the brim, or a single byte behind them |
| RecvBuffer.LandingHappens | Socket&Http/SimpleHttp.cpp:170-178 | Two instances of such writes |
| RecvBuffer.FragmentationDoesNotMatter | Socket&Http/SimpleHttp.cpp:165-201 | Two ways of cutting the same bytes into chunks of safe sizes leave the same contents and parse to the same headers |
| RecvBuffer.MemoryStruct.constructor | Socket&Http/SimpleHttp.cpp:59-71 | An empty buffer of 512 bytes with its terminator |
| RecvBuffer.MemoryStruct.Reallocate | Socket&Http/SimpleHttp.cpp:171 | A larger block with the old bytes in front |
| RecvBuffer.UserDataWrite | Socket&Http/SimpleHttp.cpp:165-186 | The write callback. On memory: stored, with the terminator if there is room, whenever the chunk fits or memory is left, refused without any change and with result 0 otherwise. On a file: the bytes fwrite takes are appended and the size goes up by its item count. With neither, or without user data: no change. The result of each branch modulo 2^32 |
| Supervisor.ReapLoopKeepsPaths | Socket&Http/honorguard.cpp:97-116 | Over any run of the reap loop, each path loses exactly one copy for each of its children that failed |
| Supervisor.RestartKeepsPaths | Socket&Http/honorguard.cpp:69-115 | A restart keeps the paths on record if and only if the new pid is not on record yet |
| Supervisor.ExecFailureExits | Socket&Http/honorguard.cpp:74-111 | The reap loop ends the supervisor if and only if it is not shutting down and some reaped child has the status byte that exit(-10) leaves |
| Supervisor.FailuresAreDropped | Socket&Http/honorguard.cpp:97-116 | Children that failed otherwise, or that have no path, are taken off the record over any run of the reap loop, and nothing else happens |
| Supervisor.ShutdownAccounting | Socket&Http/honorguard.cpp:45-130 | With all children started before the only SIGTERM, and no failed fork, the counter is the number of children on record and of children not reaped, and main may leave exactly when there are none |
| Supervisor.LeavesExactlyWhen | Socket&Http/honorguard.cpp:45-52 | With no child started once the flag is up, main may leave if and only if the flag is up, every child is reaped, no fork failed, and no SIGTERM found children on record a second time |
| Supervisor.LeavesInGeneral | Socket&Http/honorguard.cpp:42-52 | For every run: main may leave if and only if the flag is up and children not reaped, a failed fork and children counted again are together as many as those started late |
| Supervisor.NeverLeaves | Socket&Http/honorguard.cpp:45-130 | After a failed fork or a second SIGTERM that found children, no continuation lets main leave |
| Supervisor.LateStartLeavesEarly | Socket&Http/honorguard.cpp:42-52 | A child started behind a SIGTERM that found another one: main may leave once the other is reaped, with this one running |
| Supervisor.FailedForkHangs | Socket&Http/honorguard.cpp:69-130 | When fork fails for the only child, SIGTERM counts the entry under pid -1, and no continuation lets main leave |
| Supervisor.SecondSigTermHangs | Socket&Http/honorguard.cpp:119-130 | One child and two SIGTERMs before it is reaped: everything is reaped, and no run of signals from there on lets main leave |
| Supervisor.RecordShrinks | Socket&Http/honorguard.cpp:112-115 | After the flag is up every reap takes one child off the record |
| Supervisor.NoChildrenNoExit | Socket&Http/honorguard.cpp:119-130 | With no child on record SIGTERM changes nothing, so no run of signals lets main leave |
| Supervisor.CreatedRecordsAll | Socket&Http/honorguard.cpp:61-78 | Started with distinct pids, every child is on record under its own path |
| Supervisor.Guard.constructor | Socket&Http/honorguard.cpp:26-28 | Nothing on record, nothing to wait for |
| Supervisor.Guard.BecomeEternal | Socket&Http/honorguard.cpp:69-78 | What fork returned, even -1, is recorded under the path |
| Supervisor.Guard.CreateChildProcess | Socket&Http/honorguard.cpp:61-67 | The children are started in order |
| Supervisor.Guard.OnSigChld | Socket&Http/honorguard.cpp:96-118 | Child by child: a restart under a new pid, a drop, a count-down during shutdown, or the exit, as the model of the loop has it |
| Supervisor.Guard.OnReaped | Socket&Http/honorguard.cpp:100-115 | One turn of the reap loop, in terms of status, record, flag and counter |
| Supervisor.Guard.KillAll | Socket&Http/honorguard.cpp:123-128 | The loop over the record kills every child on it and counts each once, in any order |
| Supervisor.Guard.OnSigTerm | Socket&Http/honorguard.cpp:119-130 | The counter goes up by the number of children on record modulo 2^32, all of them are killed, and the flag goes up if there was one |
| Supervisor.Guard.TestExit | Socket&Http/honorguard.cpp:45-52 | Main leaves exactly when the flag is up and the counter is zero, and then what it should still wait for is a multiple of 2^32 |

## Left out

- Sockets, TLS, the HTTP upgrade, libcurl, files, logging and tracing: incoming messages, chunks and results of system calls are arbitrary inputs.
- The time stamp in front of a chat message is an opaque label.
- WorkerShutdown.ShutdownReleasesEveryone: like the other theorems of its module it takes T + M to be below 2^64, so that the count does not wrap; the sleeps of main have no effect in the model.
- ChatServer.Server.Broadcast: the runs in which other goroutines move during the broadcast are those of `ChatRoom.FanOutExactlyOnce`.
- ChatRoom.TotalOrderDelivery: a message received directly by a waiting writer passes through the queue; `ReadMessage` may fail at any time, which covers a socket closed by the writer or the peer; the tracer calls are not steps.
- HeaderParser.Split: the position in a line is a natural number, not a 32-bit int; the delimiters are a set, as strspn and strpbrk treat them.
- HeaderParser.BeautifyHeader: when a line throws, the map is as it was before that line, which is the evaluation order since C++17.
- RecvBuffer.UserDataWrite: the product of size and nmemb does not overflow; a terminator that falls behind the block is recorded and not stored.
- The rest of SimpleHttp.cpp: client and request plumbing around libcurl, and the copy of the header loop that returns at once.
- Reuse of one request, whose buffers are not reset between calls.
- Supervisor.LeavesInGeneral: fewer than 2^32 children are counted and started late; `Supervisor.LeavesExactlyWhen`, `Supervisor.ShutdownAccounting` and `Supervisor.NeverLeaves` bound those counted in the same way, so that the counter does not come round to zero by wrapping.
- Supervisor.ShutdownAccounting: handlers do not interrupt each other, because the mutex is not recursive; a child does not exit before its pid is on record; a pid does not come back while it is on record or just reaped. What follows exit(0) on status 246 is not modelled.
- GetBinName and GetBinPath: easy string cuts.
- The other TCP, web socket, mail, database, queue, certificate, serialisation and file examples: I/O around library calls.
