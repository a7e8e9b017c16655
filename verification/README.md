# Fencing server: a verified model

This project models a fencing service: a server with one selector thread, a pool of worker
threads and a length-prefixed wire protocol, and the client that asks it to switch a node off,
on or to reboot it. It states and proves, for all inputs, runs and interleavings, what the
service guarantees, and exactly where the code falls short of what it is meant to do.

`dafny verify dfyconfig.toml` checks everything.

## How the model is built

| file | what it models |
|---|---|
| `Wire.dfy` | 16-bit big-endian numbers, the message header, field writer and reader, key/value split |
| `Connection.dfy` | one connection as a value: `receive_message` and `send_message` over partial transfers |
| `Phases.dfy` | what holds of a client object in each place it can be, and one visit of the I/O loop |
| `Fencing.dfy` | `process_client_message` and `fence_action`; what the payload loop accepts |
| `Queue.dfy`, `GenAlloc.dfy`, `NetClient.dfy`, `Selector.dfy` | the same on the heap: the intrusive queue, the object pool, the client object, and the selector's and a worker's work on them, as written |
| `ServerProtocol.dfy` | the threads, locks, condition variable, trigger pipe and stop signal as a step system |
| `ServerOwnership.dfy` to `ServerInvariant.dfy` | its inductive invariant |
| `ServerTheorems.dfy`, `ServerShutdown.dfy`, `ServerStop.dfy` | what holds in every reachable state, and of shutdown |
| `ServerDefects.dfy`, `ServerJoin.dfy` | the server as written: where it departs from its intent, with exact conditions |
| `ServerRuns.dfy`, `DeafServer.dfy`, `DroppedClient.dfy`, `EscapedRequest.dfy` | runs from start-up, for any number of client objects, that reach each of those failures |
| `ClientConnector.dfy` | the client's send and receive loops, request and reply |
| `EndToEnd.dfy`, `EndToEndTheorems.dfy` | client, connection and two byte streams together |
| `ServerSessions.dfy` | the concurrent server refines the connection used there |
| `Messages.dfy` | the server's side of a connection for any message, by its bytes |
| `ServerVisits.dfy` | the I/O loop on the heap refines the step system's |
| `ServerService.dfy`, `ServerAnswers.dfy` | the concurrent server comes to every client, and answers exactly the answerable messages from every reachable state |
| `Sums.dfy` | counting over sequences |

Pure specification functions (`RecvStep`, `SendStep`, `Process`, `VisitRead`, ...) describe what
one call does to a client object; the heap methods of `NetClient` are proved equal to them, and
the step system and the end-to-end model are made of them. What they do is stated in turn by the
bytes received and sent, without them (`RecvFragmentation`, `ServedBytes`, `InterpretExact`,
`RequestBytes`, `CloseExact`). So the imperative code, the concurrent server and the end-to-end
theorems speak of the same behaviour.

A step of the server is what one thread does between two points where another thread can
intervene. The program points of `ServerProtocol.SelPc` and `ServerProtocol.WorkPc` stand for:

| program points | source |
|---|---|
| `Enable`, `Check` | src/ServerConnector.cpp:133-134 |
| `BuildWait`, `Build` | src/ServerConnector.cpp:139-168 |
| `Select` | src/ServerConnector.cpp:170-177, 265-269 |
| `Accept`, `AcceptWait`, `AcceptAdd` | src/ServerConnector.cpp:179-183, 323-354 |
| `Drain` | src/ServerConnector.cpp:185-195 |
| `IoWait`, `Io`, `MoveWait`, `Move` | src/ServerConnector.cpp:197-263 |
| `ActWait` to `ComDrain` | src/ServerConnector.cpp:291-321 |
| `StopWait`, `Stop`, `Join` | src/WorkerPool.cpp:90-116 |
| `LoopWait`, `Loop`, `Idle`, `Waiting`, `Exited` | src/WorkerPool.cpp:73-88 |
| `Take`, `Exec`, `CloseFree`, `RequeueWait` to `RequeueClose`, `Relock` | src/ServerConnector.cpp:472-516 |
| `Unowned`, `UnownedWait`, `UnownedExit` | src/ServerConnector.cpp:510-515, then src/WorkerPool.cpp:81-88 without the lock |
| `Signal` | src/SignalHandler.cpp:101-121 |

The plugin is an unknown function: its answer is an input of the step that calls it, and every
call is logged. What `recv`, `send`, `select` and `accept` return are inputs too, restricted to
what the operating system can deliver.

**Closing a connection.** `close_connection` unlinks the client from `com_queue` even if it is
not on that queue (src/ServerConnector.cpp:361), and unlinking a node that is in no queue empties
the queue (src/Queue.h:144-165). The heap classes keep this as written. In the step system a
client that is on no queue is closed without touching `com_queue`, which is the intent.

**An exception from fence_action.** A node name over 255 or a secret over 64 bytes makes the
assignment to the client object raise RangeException, which `fence_action` does not catch.
`process_action_queue` catches it and returns without the lock (src/ServerConnector.cpp:510-515),
and its client is on no queue, not in the pool and held by nobody: the step system keeps it in a
list of lost objects. The worker goes on in `worker_loop`: it tests `stop_workers`, and then it
waits or leaves, and either gives up a mutex that it does not own. C++ leaves that undefined; the
model follows a plain mutex, which is free afterwards whoever had it. The step system allows the
step if the mutex is free and if the worker does not go to wait after the last notification.

`ServerDefects` has both steps as written, without these restrictions, and proves in both
directions which runs of the server as written stay within the step system (`WrittenSoundExact`)
and which keep every client object in exactly one place (`WrittenRunExact`).

## Findings

Each is a theorem, with the condition under which the code does meet its intent, and the three
that concern whole runs come with a run from start-up that leads there, for every size of the pool.

- Closing a client that is on no queue drops all clients on `com_queue` (`WrittenCloseExact`,
  `WrittenRunExact`, `Queue.Remove`, `CloseConnection`); one client that asks for the version
  while another is connected is enough (`DropReachable`). `cleanup` leaves connections open unless
  there is nothing else to drop (`Cleanup`).
- A worker that closes a connection does not wake the selector. If the selector had left out the
  listening socket because the pool was exhausted, the server accepts nobody any more although
  the whole pool is free (`ListenMissedExact`, `DeafForever`, `DeafStateReachable`).
- A fencing request with an oversize node name or secret loses its client object for good, with
  the descriptor open (`EscapeExact`, `OwnershipExact`, `NothingLeaksExact`, `EscapeReachable`),
  and the client gets no reply (`AnswerExact`). The worker then gives up a mutex that it does not
  own: mutual exclusion survives if and only if nobody has it at that moment (`ReleaseExact`), and
  a run leads to such a release while `cleanup` has the mutex (`IntrusionReachable`). If the worker has tested `stop_workers` before the flag is set, it waits for a notification that
  has been sent already, and joining the threads needs a spurious wakeup (`JoinExact`,
  `MissedStopReachable`).
- `remove_last` does not decrement the size for a queue of one node (`Queue.RemoveLast`).
- The client's loops never end once the stream has ended or a call has failed (`SendStalls`,
  `ReceiveStalls`), and until then they can: what is left can be moved if and only if there is a
  connection and no call so far has failed or met the end of the stream (`SendExact`,
  `ReceiveExact`).
- A node name is cut at its first NUL byte by `c_str()`; the theorems are about `CStr(nodename)`.

## Model

| member | source | states |
|---|---|---|
| Wire.U16Inverse | src/MsgHeader.cpp:43-55 | decoding and encoding of 16-bit numbers are inverse in both directions |
| Wire.HeaderInverse | src/MsgHeader.cpp:31-41 | header serialisation is a bijection between headers and four-byte strings, whatever follows |
| Wire.FieldValueToBytes | src/MsgHeader.cpp:51-55 | the two bytes of the number are written at the offset, high byte first, nothing else changes |
| Wire.MsgHeader.Clear | src/MsgHeader.cpp:15-19 | type 0xFFFF and length 0 |
| Wire.MsgHeader.Serialize | src/MsgHeader.cpp:31-35 | the buffer starts with type and length, each high byte first, the rest is unchanged |
| Wire.MsgHeader.Deserialize | src/MsgHeader.cpp:37-41 | type and length are the big-endian numbers in the first four bytes |
| Wire.ReadField | src/Shared.cpp:84-122 | succeeds exactly if the big-endian number at the offset is at most what remains and the capacity, and returns that many bytes |
| Wire.ReadAtExact | src/Shared.cpp:84-122 | reading delivers a field exactly where its printed form stands and fits |
| Wire.WriteField | src/Shared.cpp:180-217 | succeeds exactly if the field fits; writes its length high byte first and then its bytes, nothing else; a rejected write changes nothing |
| Wire.WriteFields | src/ClientConnector.cpp:164-167 | any list of fields written in turn succeeds exactly if all of them fit, and leaves their printed form |
| Wire.FieldsInverse | src/Shared.cpp:84-122 | reading a message to its end delivers a list of fields if and only if it is the printed form of that list |
| Wire.FieldBufferSuffices | src/ServerConnector.cpp:26-28 | no field of a message of at most 1024 bytes overflows the key and value buffers |
| Wire.SplitKeyValuePair | src/Shared.cpp:220-242 | the search loop splits at the first "=", and fails exactly without one |
| Wire.SplitInverse | src/Shared.cpp:220-242 | splitting and joining are inverse, and splitting fails exactly without "=" |
| Connection.RecvRequestExact | src/ServerConnector.cpp:371-373 | the size asked of recv is positive, ends at the message and stays in the buffer; the subtraction never wraps |
| Connection.RecvStepAfter | src/ServerConnector.cpp:367-415 | one receive of any allowed size leads to the state that depends only on the bytes so far |
| Connection.RecvFragmentation | src/ServerConnector.cpp:367-415 | for every split of the stream the message completes exactly at the big-endian length in its third and fourth byte, brought between 4 and 1024, with exactly these bytes in the buffer |
| Connection.SendStepExact | src/ServerConnector.cpp:417-464 | one send hands over the next part of the message; the 16-bit difference never wraps |
| Connection.SendFragmentation | src/ServerConnector.cpp:417-464 | over all partial writes, zero writes and EAGAIN the output is the serialised message, neither lost nor doubled, header first |
| Phases.AcceptedReceives | src/ServerConnector.cpp:334-339 | a client as accepted is receiving with nothing received |
| Phases.VisitReadKeeps | src/ServerConnector.cpp:214-234 | a visit with data keeps the client receiving or makes it a complete request; it never overruns the buffer or closes |
| Phases.VisitWriteKeeps | src/ServerConnector.cpp:237-258 | a visit with a send result goes on with the same message exactly while bytes are left, then to a cleared receiving client, or to a close exactly on failure or after the last reply |
| Fencing.ParseExact | src/ServerConnector.cpp:561-575 | the payload loop accepts exactly the sequences of fields with "=" and no oversize value, lets RangeException escape exactly if the first bad field is oversize, and the last NODENAME and SECRET win |
| Fencing.LastWins | src/ServerConnector.cpp:565-573 | the value that counts for a key is what follows "=" in the last field that starts with the key and "=", and the default without such a field |
| Fencing.FenceExact | src/ServerConnector.cpp:557-601 | calls, escape and resulting phase of fence_action in terms of the payload alone |
| Fencing.PluginCallExact | src/ServerConnector.cpp:518-601 | the plugin is called if and only if a fencing request is well formed and names a node, once, for that action and node |
| Fencing.ServedBytes | src/ServerConnector.cpp:518-601 | by the bytes of any message: off is called only for type 00 81, on for 00 82, reboot for 00 83; exactly echo requests and well-formed fencing requests that name a node are answered, with 00 01 00 04, 00 A0 00 04 or 00 A1 00 04; all others lead to a close |
| Fencing.EscapeExact | src/ServerConnector.cpp:566-575 | an exception escapes exactly for a fencing request with an oversize name or secret |
| Fencing.ProcessLeadsToReplyOrClose | src/ServerConnector.cpp:482-508 | serving leads to a reply from a cleared buffer or to a close, never back to RECV |
| IntrusiveQueue.Queue.constructor | src/Queue.h:41-49 | the empty queue |
| IntrusiveQueue.Queue.AddFirst | src/Queue.h:60-74 | prepends to the sequence; links stay mutually inverse and the size right |
| IntrusiveQueue.Queue.AddLast | src/Queue.h:76-90 | appends to the sequence; links stay mutually inverse and the size right |
| IntrusiveQueue.Queue.RemoveFirst | src/Queue.h:102-121 | takes the first node, fully unlinked, or null |
| IntrusiveQueue.Queue.RemoveLast | src/Queue.h:123-142 | takes the last node, fully unlinked; the size stays right if and only if the queue did not have exactly one node |
| IntrusiveQueue.Queue.Remove | src/Queue.h:144-165 | takes out just that member at any position; for a node in no queue it empties the queue while the nodes stay linked, and the size is right if and only if there was one |
| IntrusiveQueue.Queue.Bypass | src/Queue.h:144-163 | the neighbours refer to each other and the node to nobody |
| IntrusiveQueue.Queue.Clear | src/Queue.h:167-180 | unlinks every node |
| IntrusiveQueue.CutChained | src/Queue.h:144-165 | bypassing one node leaves a chain of the others, for every position |
| FixedPool.GenAlloc.constructor | src/GenAlloc.h:52-66 | every object is free |
| FixedPool.GenAlloc.GetFreeCount | src/GenAlloc.h:117-121 | pool size minus the number of live objects |
| FixedPool.GenAlloc.GetAllocatedCount | src/GenAlloc.h:123-127 | the number of live objects |
| FixedPool.GenAlloc.Counts | src/GenAlloc.h:117-127 | free and live objects make up the pool |
| FixedPool.GenAlloc.Allocate | src/GenAlloc.h:130-144 | fails exactly if all objects are live, otherwise hands out one that was not |
| FixedPool.GenAlloc.Deallocate | src/GenAlloc.h:146-154 | the free list stays a duplicate-free enumeration of the non-live objects if and only if a live object was returned or the list was full |
| FixedPool.GenAlloc.IndicesExact | src/GenAlloc.h:156-164 | going through the indices meets every object, free or live, exactly once, and nothing else |
| FixedPool.PushExact | src/GenAlloc.h:146-154 | appending keeps an enumeration of pool objects without repetition exactly for a pool object not in it |
| NetClients.NetClient.ClearIoBuffer | src/ServerConnector.cpp:677-682 | offset, header flag and buffer are cleared, nothing else |
| NetClients.NetClient.Clear | src/ServerConnector.cpp:662-675 | the object is as new: no descriptor, name or secret |
| NetClients.NetClient.Connect | src/ServerConnector.cpp:334-339 | the object is a newly accepted connection |
| NetClients.NetClient.ReceiveMessage | src/ServerConnector.cpp:367-415 | refines the receive step; closes exactly on end of stream or error |
| NetClients.NetClient.PrepareMessage | src/ServerConnector.cpp:421-434 | the declared length is brought between 4 and 1024 and the header serialised, once per message |
| NetClients.NetClient.SendMessage | src/ServerConnector.cpp:417-464 | refines the send step and hands over the bytes it says |
| NetClients.NetClient.ReadParameters | src/ServerConnector.cpp:561-575 | the loop terminates and refines the payload loop's function |
| NetClients.NetClient.FenceAction | src/ServerConnector.cpp:557-601 | refines fence_action's function: new state, calls, escape |
| NetClients.NetClient.ProcessClientMessage | src/ServerConnector.cpp:481-555 | refines the function of serving a message; call, reply and close follow from the bytes of the message |
| NetClients.NetClient.DoIo | src/ServerConnector.cpp:209-258 | refines one visit of the I/O loop; end of stream, an error, a failed send and cancellation close |
| NetClients.CloseExact | src/ServerConnector.cpp:209-258 | a visit closes a client exactly if it is cancelled, its stream has ended or failed, a send has failed, or its last reply is out |
| SelectorLoops.ServerConnector.AcceptConnection | src/ServerConnector.cpp:323-354 | a free object joins com_queue as an accepted client; fails exactly if all are live; no other client changes |
| SelectorLoops.ServerConnector.CloseConnection | src/ServerConnector.cpp:357-365 | as written: descriptor closed, object cleared and free; a member is unlinked, but a client on no queue empties com_queue |
| SelectorLoops.ServerConnector.BuildSets | src/ServerConnector.cpp:136-167 | the sets hold exactly the descriptors of clients that read or write; the listening socket exactly if an object is free |
| SelectorLoops.ServerConnector.MoveToAction | src/ServerConnector.cpp:228-233 | the client leaves com_queue and is the last on the action queue |
| SelectorLoops.ServerConnector.VisitClient | src/ServerConnector.cpp:209-258 | one visit: client state, both queues and pool follow from the fate |
| SelectorLoops.ServerConnector.Turn | src/ServerConnector.cpp:203-261 | the next node read before the visit is the right one even if the client is unlinked, freed or relinked |
| SelectorLoops.ServerConnector.IoLoop | src/ServerConnector.cpp:199-263 | each client on com_queue is visited exactly once, in order and in the state it had; survivors keep their order, others are queued or freed; the loop ends; a client whose stream has ended or failed or whose send has failed is off com_queue, cleared and free |
| SelectorLoops.ServerConnector.ServeNext | src/ServerConnector.cpp:472-516 | one turn of a worker as written: calls, requeue, or a close that drops whatever is on com_queue |
| SelectorLoops.ServerConnector.CleanActions | src/ServerConnector.cpp:296-303 | closes the clients on the action queue; drops com_queue if there was one |
| SelectorLoops.ServerConnector.CleanCom | src/ServerConnector.cpp:312-315 | closes only the first client on com_queue, the others are dropped |
| SelectorLoops.ServerConnector.Cleanup | src/ServerConnector.cpp:291-321 | returns every queued client to the pool if and only if com_queue is empty, or the action queue is and com_queue holds one |
| SelectorLoops.ServerConnector.CleanupExact | src/ServerConnector.cpp:291-321 | when none of the clients that were queued is left allocated |
| ServerOwnership.LockSelStep | src/ServerConnector.cpp:131-354 | a thread holds a lock exactly inside the lock's sections: kept by the selector |
| ServerOwnership.LockWorkStep | src/ServerConnector.cpp:472-516 | the same for a worker, which is back in worker_loop with action_queue_lock held |
| ServerOwnership.OwnSelStep | src/ServerConnector.cpp:199-346 | a selector step moves client objects between places without losing or doubling one |
| ServerOwnership.OwnWorkStep | src/ServerConnector.cpp:472-516 | a worker step does the same; an object whose message lets an exception escape goes to the lost ones |
| ServerOwnership.TailSelStep | src/ServerConnector.cpp:203-261 | during the I/O loop the clients to visit are the tail of com_queue |
| ServerWorkers.AstrayWorkStep | src/ServerConnector.cpp:510-515 | every worker that goes on without the lock has lost an object, so that it cannot be missed by the queued clients |
| ServerWorkers.SufficiencySelStep | src/ServerConnector.cpp:232-234 | queued clients plus taken workers never exceed the workers: kept when a client is queued and one worker notified |
| ServerWorkers.SufficiencyWorkStep | src/WorkerPool.cpp:73-88 | kept by workers that take, finish, wait or wake spuriously |
| ServerWorkers.ShutdownSelStep | src/ServerConnector.cpp:291-321 | the stages of shutdown: drained queues stay drained, the flag is set before com_queue is drained |
| ServerWorkers.ShutdownWorkStep | src/ServerConnector.cpp:485-499 | no worker is about to add to com_queue once it is drained |
| ServerWorkers.WorkerOrder | src/WorkerPool.cpp:73-88 | a worker back from a client takes the next whether or not it is to stop, a woken one tests the flag first, and one that found the queue empty tests it before it waits |
| ServerConnections.ConnSelStep | src/ServerConnector.cpp:199-263 | what holds of each client object in its place is kept by the selector |
| ServerConnections.ConnWorkStep | src/ServerConnector.cpp:479-508 | and by the workers |
| ServerDescriptors.FdInvStep | src/Shared.cpp:14-26 | accepted descriptors are the closed ones plus the open ones, and no two clients share one |
| ServerDescriptors.FdSetSelStep | src/ServerConnector.cpp:154-177 | the descriptor sets name only clients on com_queue, each in the phase the set stands for |
| ServerDescriptors.WakeupSelStep | src/ServerConnector.cpp:133-195 | the selector keeps: a set flag before the drain implies a byte in the pipe |
| ServerDescriptors.WakeupWorkStep | src/ServerConnector.cpp:485-494 | a worker that adds a client keeps the wakeup pending until the byte is written |
| ServerDescriptors.WakeupSignal | src/SignalHandler.cpp:101-121 | a signal sets the flag and triggers the pipe |
| ServerInvariant.InvInit | src/Server.cpp:64-74 | the invariant holds at start-up, for every pool size |
| ServerInvariant.InvStep | src/ServerConnector.cpp:131-516 | every step of every thread and every signal keeps the invariant |
| ServerInvariant.InvRun | src/ServerConnector.cpp:131-516 | the invariant holds after every run |
| ServerTheorems.OwnershipPartition | src/ServerConnector.cpp:229-507 | in every reachable state each client object that is not lost is in exactly one place, a lost one in none and with its descriptor open, and no queue has one twice |
| ServerTheorems.LostStep | src/ServerConnector.cpp:510-515 | a step loses its client exactly if it serves a fencing request with an oversize name or secret |
| ServerTheorems.OwnershipExact | src/ServerConnector.cpp:472-516 | at the end of a run every object is in exactly one place if and only if the run served no such request |
| ServerTheorems.WorkerSufficiency | src/WorkerPool.cpp:68-88 | until the pool is stopped as many workers are awake as clients are queued or served, and as many are awake and without a client as clients are queued |
| ServerTheorems.NoLostWakeup | src/ServerConnector.cpp:133-195 | in select with an empty pipe and no write pending, every client on com_queue is watched and the stop flag is not set |
| ServerTheorems.WakeupReturnsSelect | src/ServerConnector.cpp:275-289 | with a byte in the pipe or the flag set, select can return; with a write pending, it can after that write, which is possible |
| ServerTheorems.NoWriteAfterClose | src/ServerConnector.cpp:305-321 | no worker and no signal handler writes to the trigger pipe once cleanup has closed it |
| ServerTheorems.PhaseInvariant | src/ServerConnector.cpp:209-258 | a client on com_queue receives an incomplete message or replies; one on the action queue has exactly one message |
| ServerTheorems.UnreachableBranches | src/ServerConnector.cpp:209-223 | the CANCELED branch and pool exhaustion are never reached, and no receive overruns a buffer |
| ServerTheorems.NoStaleName | src/ServerConnector.cpp:562-592 | what a worker's service adds to the plugin log follows from the message just received alone |
| ServerTheorems.OnlyExecuteCalls | src/ServerConnector.cpp:584 | no other step calls the plugin |
| ServerShutdown.NoDeadlock | src/ServerConnector.h:36-40 | a thread that waits for a lock can acquire it if it is free; if not, the owner can step, the selector after acquiring the second lock, which is free or has an owner that can step; none waits for com_queue_lock holding action_queue_lock |
| ServerShutdown.NothingQueuedAfterCleanup | src/ServerConnector.cpp:305-321 | after cleanup no run puts a client on a queue again |
| ServerShutdown.NothingLeaks | src/ServerConnector.cpp:291-321 | when the workers are joined every object is back in the pool or lost, and every accepted descriptor was closed as often as accepted unless a lost object has it |
| ServerShutdown.NothingLeaksExact | src/ServerConnector.cpp:291-321 | over whole runs nothing is left over if and only if no request with an oversize name or secret was served |
| ServerShutdown.JoinTerminates | src/WorkerPool.cpp:90-116 | after stop_workers the workers take at most nine steps each |
| ServerShutdown.JoinProgress | src/WorkerPool.cpp:101-116 | until all have exited one can step, unless one is going to miss the notification |
| ServerStop.StopBounded | src/ServerConnector.cpp:134-321 | once the stop flag is set the selector takes a bounded number of steps in any run: five for each object, eighteen, and one for each byte in the pipe or still written to it |
| ServerStop.StopProgress | src/ServerConnector.cpp:134-321 | until it joins the workers the selector can step, or the owner of the lock it waits for can, and no failing call is needed |
| ServerStop.StopReachesJoin | src/ServerConnector.cpp:134-321 | from every reachable state with the flag set a run of bounded length leads to joining |
| ServerJoin.JoinExact | src/WorkerPool.cpp:73-116 | as written and without a spurious wakeup, joining can finish if and only if no worker passed the test of stop_workers without the lock before the flag was set |
| ServerJoin.AsleepRun | src/WorkerPool.cpp:83-86 | over every run as written such a worker keeps joining from finishing |
| ServerDefects.ReleaseExact | src/WorkerPool.cpp:83-88 | giving up the mutex without owning it keeps mutual exclusion if and only if nobody has it, and the whole invariant if besides the worker does not wait after the last notification |
| ServerDefects.WrittenStepExact | src/ServerConnector.cpp:357-365 | a step as written leads to a state of the intended server if and only if it drops no client and makes no such release |
| ServerDefects.WrittenSoundExact | src/ServerConnector.cpp:131-516 | the same over whole runs; a run of such steps is one of the intended server |
| ServerDefects.WrittenCloseExact | src/ServerConnector.cpp:357-365 | a step as written leaks exactly the clients it drops from com_queue and the one it loses to an exception |
| ServerDefects.WrittenRunExact | src/ServerConnector.cpp:357-365 | over whole runs every object is in exactly one place throughout if and only if com_queue is empty at each close of a detached client and no request with an oversize name or secret is served |
| ServerDefects.ListenMissedExact | src/ServerConnector.cpp:500-504 | a free object goes unnoticed by a waiting selector exactly if a worker closes while the listening socket is left out |
| ServerDefects.DeafForever | src/ServerConnector.cpp:146-151 | such a server with nothing else to do never accepts again without an external event |
| DeafServer.DeafStateReachable | src/ServerConnector.cpp:500-504 | for every pool size a run of ordinary version requests, one for each object, leads there |
| DroppedClient.DropReachable | src/ServerConnector.cpp:500-504 | for every pool of two objects or more a run of two clients, of which one asks for the version, reaches a close that drops the other |
| EscapedRequest.EscapeReachable | src/ServerConnector.cpp:566-575 | for every pool size a run of one request with a 256-byte node name reaches a lost client |
| EscapedRequest.IntrusionReachable | src/WorkerPool.cpp:83-88 | and for every pool size a run reaches a worker that gives up the mutex while the selector has it, so that mutual exclusion is lost |
| EscapedRequest.MissedStopReachable | src/WorkerPool.cpp:83-86 | and for every pool size a run reaches a worker that misses the last notification |
| FencingClient.LimitsFit | src/ClientConnector.cpp:155-167 | every name and secret within the limits makes a request of at most 343 bytes, which fits |
| FencingClient.SendStalls | src/ClientConnector.cpp:196-214 | after a failed send the loop can never complete |
| FencingClient.ReceiveStalls | src/ClientConnector.cpp:230-256 | after end of stream or an error the receive loop can never complete |
| FencingClient.SendExact | src/ClientConnector.cpp:196-214 | a send loop that is not through can still complete if and only if there is a descriptor and no send so far has failed |
| FencingClient.ReceiveExact | src/ClientConnector.cpp:230-256 | a receive loop whose message is incomplete can still complete if and only if there is a descriptor and every recv so far has delivered bytes |
| FencingClient.ClientConnector.SendMessage | src/ClientConnector.cpp:188-219 | what is sent is a prefix of the message, all of it exactly on return; I/O error exactly for a declared length above 1024 |
| FencingClient.ClientConnector.ReceiveMessage | src/ClientConnector.cpp:222-261 | for every split it returns exactly when a whole message has arrived, and holds just that message |
| FencingClient.ClientConnector.FillRequest | src/ClientConnector.cpp:155-167 | both fields are written exactly if the request fits; the 16-bit cast of the length is lossless |
| FencingClient.InterpretExact | src/ClientConnector.cpp:170-185 | any complete reply means success exactly for type 00 A0, failure exactly for 00 A1, an I/O error exactly for a declared length above 1024, and a protocol error otherwise |
| FencingClient.RequestBytes | src/ClientConnector.cpp:155-169 | the request byte by byte: type of the action, length, and the fields NODENAME= and SECRET= with their lengths, high bytes first; it fits exactly up to 1000 bytes of name and secret |
| FencingClient.ClientConnector.FenceActionImpl | src/ClientConnector.cpp:149-185 | the request sent starts with the type of the action; the answer or exception by the bytes of any reply received |
| FencingClient.ClientConnector.CheckConnection | src/ClientConnector.cpp:118-128 | 00 00 00 04 is sent; true exactly for a reply of type 00 01, and I/O error exactly for a declared length above 1024 |
| EndToEnd.RequestParsed | src/ServerConnector.cpp:561-575 | the server's parser recovers from the client's request the node named, unless a value is too long |
| EndToEnd.Served | src/ServerConnector.cpp:518-601 | serving the client's request yields the expected call and reply, or neither |
| EndToEndTheorems.SafeStep | src/ServerConnector.cpp:367-601 | the end-to-end invariant is kept by every step of either party |
| EndToEndTheorems.FencingSafety | src/ClientConnector.cpp:149-185 | over every run the plugin is called at most once, for the requested action on exactly the node named, and a reply makes the client return what that call returned |
| EndToEndTheorems.EchoSafety | src/ClientConnector.cpp:118-128 | an answered echo reports true, calls nothing and leaves the connection ready for the next request |
| EndToEndTheorems.RequestTerminates | src/ClientConnector.cpp:188-261 | without failures a request of m bytes takes at most 2m + 18 productive steps and ends with the reply |
| EndToEndTheorems.AnswerExact | src/ServerConnector.cpp:566-592 | a run that answers exists if and only if a node is named and name and secret are within 255 and 64 bytes |
| EndToEndTheorems.ServerSideSafety | src/ServerConnector.cpp:367-601 | for any pieces of a request and any schedule of its connection the server makes no other call and sends only a prefix of the right reply |
| Messages.MessageSafety | src/ServerConnector.cpp:367-601 | whatever message arrives, cut anyhow and under any schedule of its connection, no call is made but the one its bytes ask for and nothing is sent but a part of the reply to it, and nothing at all if it is not to be answered |
| EndToEndTheorems.ScriptsExact | src/ClientConnector.cpp:188-261 | a run of the session gives the client's calls results that the operating system can deliver |
| EndToEndTheorems.FenceOverSession | src/ClientConnector.cpp:149-185 | the client's method, run against the server's side, answers exactly if the reply was delivered, with the result of the one call made |
| ServerSessions.StepFollows | src/ServerConnector.cpp:131-516 | each step of the concurrent server is, for each client object, nothing, a new connection or one allowed move of the session |
| ServerSessions.RunFollows | src/ServerConnector.cpp:131-516 | over whole runs the history of every client object is one of the session model |
| ServerSessions.AcceptedReady | src/ServerConnector.cpp:334-339 | a newly accepted connection is ready for a request |
| ServerSessions.ServerFencingSafety | src/ServerConnector.cpp:131-601 | over every run of all threads a connection that receives a fencing request leads to at most one call, for that action and node, and sends only a prefix of the reply that tells its result |
| ServerSessions.FenceOverServer | src/ClientConnector.cpp:149-185 | the client's method against the concurrent server: an answer means that the plugin was called exactly once for the request, for that action and node, with that result |
| ServerVisits.VisitRefines | src/ServerConnector.cpp:209-258 | in every state of the server and for any results of the calls the visit on the heap does to the client what the selector's step does |
| ServerVisits.LoopRefines | src/ServerConnector.cpp:199-263 | what the I/O loop on the heap leaves in the clients, both queues and the pool is what a run of the selector's steps leaves there, for any results of the calls |
| ServerService.LoopLeft | src/ServerConnector.cpp:134-270 | the selector leaves its loop exactly with the stop flag or when select fails; an interrupted select goes back to the test of the flag |
| ServerService.ServingExact | src/ServerConnector.cpp:131-270 | over whole runs the server goes on serving if and only if no signal comes and no select fails |
| ServerService.Comes | src/ServerConnector.cpp:131-263 | while no stop is under way a run of bounded length, without a failure, brings the selector to any client on com_queue and finds it ready for its operation; nothing happens to the client until then |
| ServerService.QueuedTaken | src/WorkerPool.cpp:68-88 | a queued client never waits for another one's fencing action: within five steps for each queued client a worker is about to serve it, although no worker meanwhile carries out anything |
| ServerAnswers.MessageAnswered | src/ServerConnector.cpp:131-516 | from every reachable state with a connection at rest on com_queue and no stop under way a run of bounded length, without a failure, receives any answerable message, makes exactly the call it asks for and sends the whole reply; after an echo the connection is at rest again, after a fencing action its object is free |
| ServerAnswers.RequestAnswered | src/ServerConnector.cpp:131-516 | so for every fencing request that names a node, with name and secret within 255 and 64 bytes |
| ServerAnswers.ServerMessageSafety | src/ServerConnector.cpp:131-601 | over every run of all threads a connection on which any message arrives makes no other call than it asks for and sends only a part of the reply to it, and nothing if it is not to be answered |
| ServerAnswers.MessageAnswerExact | src/ServerConnector.cpp:518-601 | for any message whatever some run of the server replies to it if and only if it is an echo request or a well-formed fencing request that names a node |
| ServerAnswers.Rejected | src/ServerConnector.cpp:496-507 | any other message, unless an exception escapes, makes the worker close the descriptor and free the object with its next step, without a call |
| ServerAnswers.ServerAnswerExact | src/ServerConnector.cpp:566-592 | from such a state some run of the whole server replies to a fencing request if and only if it names a node and name and secret are within 255 and 64 bytes |

## Left out

- ServerTheorems.OwnershipPartition: for the intended close of a client on no queue and except for lost objects; `WrittenRunExact` gives the exact condition under which it holds of the code as written without exception.
- ServerShutdown.NothingLeaks: likewise for the intended close; `Cleanup` says what the code as written leaves behind.
- ServerShutdown.JoinProgress: requires that no worker is about to wait without the lock after the last notification; `JoinExact` is the condition in both directions.
- ServerJoin.JoinExact: about a plain mutex, which an unlock makes free whoever had it; C++ leaves an unlock by another thread undefined. An exception class not derived from std::exception would end the process instead, which is not modelled.
- ServerDefects.WrittenRun: what a run as written does to com_queue is meant up to the first step that drops clients, since the dropped nodes stay linked to each other.
- SelectorLoops.ServerConnector.ServeNext: requires the client's offset to lie within its buffer, which `PhaseInvariant` gives for every client on the action queue.
- ServerSessions.ServerFencingSafety: speaks of one connection up to the reuse of its client object, and of a peer that sends one fencing request and nothing else; `ServerMessageSafety` likewise of one message of any kind.
- ServerAnswers.Rejected: for the intended close of a client on no queue, like the step system.
- ServerVisits.LoopRefines: for a loop during which no worker has action_queue_lock; the step system also has the loops in which the selector waits for it.
- ServerAnswers.MessageAnswered: says that such a run exists from each of these states, not that every fair schedule is one; no fairness of the scheduler, the locks or the network is assumed.
- EndToEndTheorems.RequestTerminates: a party that fails or is never scheduled takes no step; the bound counts steps that move bytes or serve the request.
- NetClients.NetClient.ReadParameters: the key and value buffers are scratch space that is overwritten before each use; they are local values here and not fields.
- IntrusiveQueue.Queue.Remove: a client derives from the node class in the source; here a node refers to its client, so aliasing between node and client is not modelled.
- SelectorLoops.ServerConnector.IoLoop: `recv` and `send` results that exceed the size requested are excluded; `UnreachableBranches` shows that allowed ones never overrun.
- ServerInvariant.InvInit: the system starts with all workers running; thread creation under the lock in `WorkerPool::start` and its failure path are not modelled.
- SignalHandler and WorkerPool are not classes here: their fields are components of the step system's state and each of their lock sections is one step; signal masks and async-signal-safety are outside a step model.
- `accept` is not checked by the code; it is taken to return a descriptor that is not open. `select` returns only ready descriptors that were asked for.
- The data race of a worker that closes a connection without `com_queue_lock` is one atomic step; torn reads of pointers are not modelled.
- Retry loops on EINTR, the check of the largest descriptor, and the capacity of the trigger pipe beyond its being positive (65536 here).
- The framing of what follows a message with a declared length above 1024: the rest of such a message is read as the next one, as in the code, but no theorem about several messages covers it.
- Sockets, addresses, plugin loading, arguments, logging, metadata and version strings: calls into the operating system or unseen libraries, or only easy members.
- Move constructors and assignments of the pool, the queue and the worker pool: not used by the protocol.
- The overloads of the reader and of the key/value split for std::string: the server uses the ones modelled.
- The secret is transmitted and parsed but never consulted by the source, so there is nothing to state about authentication.
