# Verified model of the YFS lock service, RPC library and directory format

YFS is a small distributed file system.  Clients keep files and directories in an extent
store, serialise their work with a caching lock service, and talk to both through an RPC
library of their own.  This project models the parts whose correctness is hard to see and
proves what they are for.

| file | models |
|---|---|
| `Basics.dfy` | shared types and sequence helpers |
| `LockServer.dfy`, `LockClient.dfy` | every mutex-held region of the caching lock server and client, as functions on one lock's record and as classes on the tables and queues |
| `LockProtocol.dfy` | the whole protocol for one lock: any number of clients and threads, RPCs in flight, condition waits that may end at any time |
| `LockTheorems.dfy` | what every run of it keeps |
| `LockRace.dfy` | the handover condition, and why it is exact |
| `LockProgress.dfy` | what each step leads to, and that no thread is ever cut off from the lock |
| `LockSystem.dfy` | any number of locks sharing the three work queues |
| `XidWindow.dfy`, `RpcClient.dfy` | the client's window of finished calls and the acknowledgements in request headers |
| `ReplyWindow.dfy` | the server's reply window, and at-most-once execution for first arrivals in order |
| `LateArrivals.dfy` | first arrivals out of order, and when a request is then executed twice |
| `AtMostOnce.dfy` | one client and one server together, and which clients meet the reply window's condition |
| `Deadline.dfy` | timespec arithmetic and the wait and retransmit loop of a call |
| `Marshall.dfy`, `Unmarshall.dfy` | encoding and decoding of values and headers |
| `WireFormat.dfy` | where each byte of headers and values stands |
| `InBounds.dfy` | when decoding stays inside its buffer |
| `Framing.dfy` | PDUs over a byte stream that is written and read in pieces |
| `Fifo.dfy`, `ThrPool.dfy`, `PollMgr.dfy` | the bounded queue, the worker pool and the poll loop |
| `DeadWrites.dfy` | the window in which a write callback meets a dead connection |
| `Directory.dfy`, `DirectoryMap.dfy` | the text format of directories, and the finite map it refines |
| `BadNames.dfy` | what names do that the format cannot hold |
| `Namespace.dfy` | the extent store and the name space over it |

Concurrent code is a state machine: an event is one mutex-held region or one delivery, a run is
a sequence of enabled events, and a theorem speaks of the state after every run.  Each class
method that changes state is tied to the function that the machine uses for the same region.

## Assumptions

- Lock protocol: RPCs are reliable and return their handler's own status (the client takes every
  answer but RETRY for a grant, lock_client_cache.cc:106-108); client ids differ; a thread that
  holds a lock does not acquire it again (such an acquire is not counted,
  lock_client_cache.cc:82-85, `ReentryNotCounted`); job pools accept every job; no acquire of a lock is served while
  that lock's id is in `retryer_queue`.  `HandoverConditionExact` shows that the last condition
  is needed as well as enough.
- Reply window: the first arrivals of one client have increasing xids, duplicates are arbitrary;
  a successor past the end of the list fails both comparisons of lines 684 and 708 of rpc/rpc.cc.
  `OneAtATime` derives the order for every client with at most one call outstanding that waits for
  its replies; `InOrderExact` is the condition on any client, and `OtherwiseOutOfOrder` two clients
  that fail it.
- Poll loop: `pthread_cond_wait` in `block_remove_fd` does not end without a broadcast.
  `EarlyEndExact` says when an early end would do no harm.
- Deadlines: the clock never runs backwards and a wait times out only at its deadline; shifting an
  int past its range wraps.
- Clocks, random numbers, sizes of partial reads and writes, and the order in which threads run
  are inputs, quantified over.

## Where the code does less than it promises

Each of these has a lemma that exhibits it and a lemma that gives the exact condition.

- `acquire` grants whenever the owner is empty while the retryer overwrites the owner without
  looking: two threads can hold one lock (`HandoverRaceReached`, `HandoverConditionExact`).
- The length check of `unmarshall::rawbytes` is a 32-bit sum that can wrap: the string is then taken
  from behind the buffer, the object stays ok and its head moves back (`StrayReached`, `StrayExact`,
  `FitsExact`, `StraysOnNoTypes`).
- `block_remove_fd` waits without a loop: a wait that ends early can return while the callback runs
  (`EarlyEndReached`, `EarlyEndExact`).
- `block_remove_fd` clears the callback behind its wait without looking: a descriptor added during
  the wait is left watched with no callback (`CarelessReached`, `AddExact`).
- The reply window is there so that no request is executed twice.  After requests 1, 2 and 4 and a late
  3, a repeat of 2 is answered NEW and executed again (`TwiceReached`, `TwiceExact`).  The comment above
  `checkduplicate_and_update` says that DONE returns the earlier reply; a late first arrival can get
  DONE with no reply at all (`LateArrivalsMisplaced`, `FirstVerdictExact`).
- `readpdu` takes a size field below 4 and then reads far past its buffer (`ShortSizeReached`,
  `BodyInsideExact`); it then takes nothing more and never offers a PDU (`ShortSizeStuck`).  It also looks at errno after a read of 0 bytes, so an ended stream goes unnoticed
  inside a PDU while errno holds an old EAGAIN (`SurvivalExact`).
- `write_cb` asserts that its connection is not dead, but `closeconn` and a failed `send` mark it dead
  before they remove the callback (`WindowReached`, `WindowExact`).
- After 2^32 - 1 calls the xid counter is 0 and the next header acknowledges its own call
  (`WrapReached`, `WrapExact`).
- `add_timespec` stops at a full second of nanoseconds, so `cmp_timespec` tells one instant from
  itself (`OneInstantTwoWays`, `CmpExact`).
- A pool of no workers never runs the jobs it accepted (`NoWorkersNoWork`, `ShutdownDrains`).
- A name with ':' or a newline is added but never found (`BadNameNeverFound`, `AddedIsFoundExactly`).
  Its lines show entries of other names, or hide every entry behind them (`BadNamesReached`,
  `AddedShows`, `ShownExactly`, `ColonSplits`).
- Removing an entry that no newline follows throws after its extent is gone (`ThrowReached`,
  `ThrowsExact`).
- `new_inum` does not look whether its number is in use (`ReuseReached`, `CreateExact`).

## Model

| member | source | states |
|---|---|---|
| LockServer.LockServerCache.Acquire | lock_server_cache.cc:44-82 | grants a lock without owner, else queues the caller and asks for one revoke when it is the first in line; other locks unchanged |
| LockServer.LockServerCache.Release | lock_server_cache.cc:84-110 | clears the owner and queues the retry for the owner, refuses anyone else with IOERR and no change |
| LockServer.LockServerCache.RetryerTurn | lock_server_cache.cc:136-151 | pops the front id and names the front waiter owner, whoever the owner was |
| LockServer.LockServerCache.RevokerTurn | lock_server_cache.cc:170-187 | pops the front id and schedules a revoke exactly if someone waits |
| LockServer.LockServerCache.RetryReturned | lock_server_cache.cc:211-227 | pops the served waiter and asks for the next revoke, or clears the owner and retries |
| LockServer.LockServerCache.RevokeReturned | lock_server_cache.cc:247-254 | queues the id again exactly when the revoke failed |
| LockServer.ReleaseByOwnerOnly | lock_server_cache.cc:96-106 | a release succeeds if and only if its caller is the owner; anyone else changes nothing |
| LockServer.FailedRetryRepeats | lock_server_cache.cc:213-217 | after a failed retry RPC the retryer names the same owner again |
| LockServer.FailedRevokeRepeats | lock_server_cache.cc:249-250 | a revoke RPC is made again if and only if it failed |
| LockClient.LockClientCache.AcquireEnter | lock_client_cache.cc:57-119 | the caller is counted and takes a free lock, starts the RPC on a lock the client has not, or blocks |
| LockClient.LockClientCache.AcquireWake | lock_client_cache.cc:86-102 | a woken thread takes a free lock, falls through to the RPC on NONE, or blocks again |
| LockClient.LockClientCache.AcquireReturn | lock_client_cache.cc:104-120 | every answer but RETRY is a grant, RETRY goes back to the wait loop |
| LockClient.LockClientCache.Release | lock_client_cache.cc:126-155 | frees the lock for the thread that owns it, NOENT and no change otherwise |
| LockClient.LockClientCache.RevokeHandler | lock_client_cache.cc:157-183 | marks the revoke and either queues the release or waits for FREE |
| LockClient.LockClientCache.RevokeWake | lock_client_cache.cc:169-178 | goes through to the releaser exactly when the lock is FREE |
| LockClient.LockClientCache.RetryHandler | lock_client_cache.cc:185-204 | frees a lock that is being acquired, RPCERR and no change otherwise |
| LockClient.LockClientCache.ReleaserTurn | lock_client_cache.cc:222-226 | hands the front id to a release job and leaves every record alone |
| LockClient.LockClientCache.ReleaserRpcStart | lock_client_cache.cc:244-267 | lets local waiters in first if there are any, else starts the release RPC |
| LockClient.LockClientCache.ReleaserRpcWake | lock_client_cache.cc:256-267 | leaves the timed wait exactly when the lock is FREE |
| LockClient.LockClientCache.ReleaserRpcEnd | lock_client_cache.cc:270-286 | OK drops the lock, any other answer queues the release again |
| LockClient.ReleaseAnswers | lock_client_cache.cc:273-284 | a refused release is queued again as it was; after a taken one the next acquire asks the server |
| LockClient.RefusedUnchanged | lock_client_cache.cc:126-204 | release succeeds exactly for the holder and retry exactly on a lock being acquired; refusals change nothing |
| LockClient.ReentryNotCounted | lock_client_cache.cc:81-85 | a holder that acquires again gets the lock at once, and its first release frees it |
| LockProtocol.EventKeeps | lock_server_cache.cc:44-255 | every guarded event of server, clients and RPCs keeps the protocol invariant, in every interleaving |
| LockTheorems.MutualExclusion | lock_client_cache.cc:50-155 | after every run at most one thread of all clients is between a returned acquire and its release |
| LockTheorems.HolderReleases | lock_client_cache.cc:126-155 | a thread that holds the lock gets OK from release and is then outside |
| LockTheorems.CacheAgrees | lock_client_cache.cc:99-120 | the server's owner is c if and only if c's cache says it has the lock, or c is being told to retry; never both |
| LockTheorems.ReleaseSucceeds | lock_server_cache.cc:84-110 | every release RPC finds its caller as owner and is answered OK |
| LockTheorems.SingleHandoff | lock_server_cache.cc:68-78 | someone waits if and only if exactly one handoff is under way; no second revoke, the "revoke wrong" branch and the failed retry and revoke branches are unreachable |
| LockTheorems.AssertionsHold | lock_client_cache.cc:244-284 | RELEASING if and only if exactly one releaser token of the client exists; both assertions hold and ifrevoke is false at the end |
| LockTheorems.WaitersCounted | lock_client_cache.cc:75-119 | wait_threads is the number of threads blocked inside acquire |
| LockTheorems.LineMoves | lock_server_cache.cc:218-225 | the client at position k is at position k - n after n completed handoffs |
| LockTheorems.FirstCome | lock_server_cache.cc:140-145 | the waiting list has no duplicates, and the client at position k is owner after exactly k further completed handoffs and an outstanding retry, not before |
| LockRace.EarlyGrantUnsafe | lock_server_cache.cc:63-67 | an acquire served while the id is in retryer_queue leads to two holders |
| LockRace.HandoverConditionExact | lock_server_cache.cc:63-143 | in every reached state, serving an acquire keeps mutual exclusion for all guarded futures if and only if the id is not in retryer_queue |
| LockRace.HandoverRaceReached | lock_server_cache.cc:97-143 | a run from the start reaches such an acquire |
| LockProgress.EnterOutcome | lock_client_cache.cc:57-119 | in every reached state a calling thread takes a free lock at once, asks the server on NONE, and blocks only otherwise |
| LockProgress.ResumeSettles | lock_client_cache.cc:86-120 | a blocked thread can always resume, with the same three outcomes |
| LockProgress.GrantTaken | lock_client_cache.cc:104-120 | a grant on its way is taken when it arrives, by that thread alone |
| LockProgress.LeaveFrees | lock_client_cache.cc:126-155 | a release leaves the cached lock free and touches nobody else |
| LockProgress.ServeOutcome | lock_server_cache.cc:63-78 | an acquire served without owner is granted, otherwise the caller is told to retry and its client is in the queue |
| LockProgress.RevokeLeads | lock_server_cache.cc:170-187 | a queued revoke is scheduled and goes to the owner |
| LockProgress.RevokeReaches | lock_client_cache.cc:165-179 | it goes through to the releaser if and only if the lock is free there, which is then RELEASING |
| LockProgress.ReleaserLeads | lock_client_cache.cc:244-267 | with local waiters the lock is set FREE for them and the releaser waits; otherwise, and once it is FREE again, the release RPC goes out |
| LockProgress.ReleaseLeads | lock_server_cache.cc:96-103 | the release clears the owner and starts the retry |
| LockProgress.RetryLeads | lock_server_cache.cc:136-151 | the front client becomes owner, is called, and has the lock free |
| LockProgress.RepliedLeads | lock_server_cache.cc:218-225 | the served client leaves the line, and a revoke starts exactly if someone still waits |
| LockProgress.FailuresRepeat | lock_server_cache.cc:249-250 | a failed revoke or release is queued again with all records as they were |
| LockProgress.UnknownRefused | lock_server_cache.cc:213-217 | a failed retry is queued again without an owner; a client that does not know the lock answers RPCERR |
| LockProgress.HandoffCompletes | lock_server_cache.cc:120-228 | from every reached state in which a client waits, some run makes the front client owner and takes it off the line |
| LockProgress.NoThreadStuck | lock_client_cache.cc:50-155 | in every reached state every thread inside acquire holds the lock or has a run after which it does |
| LockSystem.RunProjects | lock_server_cache.cc:120-191 | any run of any number of locks over shared FIFO queues, seen at one lock, is a run of the one-lock protocol, and each queue holds the ids that the locks' handoffs say |
| LockSystem.ServiceExcludes | lock_server_cache.cc:120-191 | mutual exclusion for every lock of the service; no queue names a lock twice |
| LockSystem.QueuesInOrder | lock_server_cache.cc:136-172 | in every run each work queue gives out exactly what was put in, in that order |
| XidWindow.UpdateRefines | rpc/rpc.cc:385-409 | one update takes the window of a set to the window of the set with the xid, repeats included |
| XidWindow.WindowRefinesSet | rpc/rpc.cc:385-409 | after any updates in any order the list is sorted, its front is the largest n with 1..n finished, and it lists exactly the finished xids from there on |
| RpcClient.Rpcc.UpdateXidRep | rpc/rpc.cc:385-401 | the insertion loop followed by the compress loop computes the specified window |
| RpcClient.Rpcc.Compress | rpc/rpc.cc:403-408 | the one-pass pop loop computes the specified window |
| RpcClient.Rpcc.Begin | rpc/rpc.cc:196-216 | refuses unbound, doubly bound and closing clients, else issues the next xid with the front of the window |
| RpcClient.Rpcc.GotReply | rpc/rpc.cc:361-382 | a reply reaches its caller exactly if the call is pending, and counts as finished in any case |
| RpcClient.Rpcc.End | rpc/rpc.cc:287-295 | the call is erased and counted as finished |
| RpcClient.EventKeeps | rpc/rpc.cc:196-383 | every event keeps the account of issued, pending and finished xids, and the front never falls |
| RpcClient.RefusedExactly | rpc/rpc.cc:199-207 | when a call is refused and with which error; a refusal changes nothing |
| RpcClient.HeaderNamesCall | rpc/rpc.cc:209-215 | the xid of a header is new and names the one call entered with it; the acknowledgement is the front of the window |
| RpcClient.HeadersName | rpc/rpc.cc:209-215 | the same after every run |
| RpcClient.HeadersCount | rpc/rpc.cc:209-213 | in every run the headers carry 1, 2, 3 and so on, until the counter wraps |
| RpcClient.AcksSound | rpc/rpc.cc:196-216 | in every run acknowledgements never decrease, cover only calls that are done or gone, and with none outstanding cover everything issued |
| RpcClient.WrapExact | rpc/rpc.cc:209-215 | the header of the next call is sound if and only if the counter has not wrapped to 0 |
| RpcClient.WrapReached | rpc/rpc.cc:209-215 | a run of 2^32 - 1 finished calls after which the next header is unsound |
| ReplyWindow.RpcServer.CheckDuplicateAndUpdate | rpc/rpc.cc:647-720 | the loop with its stale successor computes the specified list and verdict, for every list; other clients untouched |
| ReplyWindow.RpcServer.AddReply | rpc/rpc.cc:727-744 | records the reply in every entry of that xid and nothing else |
| ReplyWindow.VerdictMatchesHistory | rpc/rpc.cc:647-744 | for every interleaving: NEW for first arrivals only, INPROGRESS until the reply is recorded, then DONE with exactly those bytes, or FORGOTTEN once passed |
| ReplyWindow.ForgottenForEver | rpc/rpc.cc:670-695 | a forgotten xid stays forgotten, whatever comes later |
| ReplyWindow.OrderConditionExact | rpc/rpc.cc:665-713 | a first arrival is NEW and keeps the list itself in order if and only if it is above all before it |
| LateArrivals.TwiceExact | rpc/rpc.cc:647-744 | after any in-order run, a first arrival x lets some request be answered NEW twice in an in-order future if and only if one arrival is above x and another between x and the front that the call leaves |
| LateArrivals.FirstVerdictExact | rpc/rpc.cc:665-713 | a first arrival gets FORGOTTEN below the front, DONE without a reply if it comes late right behind a front that moves, NEW otherwise |
| LateArrivals.TwiceReached | rpc/rpc.cc:697-713 | requests 1, 2, 4 and a late 3, after which the repeat of 2 is NEW a second time |
| LateArrivals.BentTwice | rpc/rpc.cc:677-713 | whenever an entry stands before its smaller neighbour behind the front, repeating that neighbour ends in a second NEW |
| LateArrivals.CrookedRun | rpc/rpc.cc:677-744 | with the late arrival at the front no known request is NEW again, and the window never moves |
| ReplyWindow.LateArrivalsMisplaced | rpc/rpc.cc:708-713 | concrete late arrivals answered DONE without a reply, and inserted out of order |
| ReplyWindow.MovesExactly | rpc/rpc.cc:682-690 | the window moves, by one entry, exactly when a request not yet forgotten is repeated, the front has its reply and its successor has arrived; an entry in progress is never dropped |
| AtMostOnce.StepKeeps | rpc/rpc.cc:196-216 | with one call at a time and none given up, every issued xid that has not arrived is the latest one |
| AtMostOnce.OneAtATime | rpc/rpc.cc:577-604 | whatever copies the network delivers and when, first arrivals of such a client increase, and each request is answered as its history says |
| AtMostOnce.InOrderExact | rpc/rpc.cc:196-216 | for every client state and every history of what it issued, all sequences of copies arrive in order if and only if no issued request but the latest is missing from the history |
| AtMostOnce.OtherwiseOutOfOrder | rpc/rpc.cc:218-294 | a client with two calls outstanding, and one that gave its first call up, fail that condition |
| Deadline.AddTimespec | rpc/rpc.cc:1073-1084 | the result is the one timespec for the sum of both times with 1 to 10^9 nanoseconds, or 0 when there were none |
| Deadline.AddableExact | rpc/rpc.cc:1073-1084 | the assertion on nanoseconds fails exactly for a negative timeout whose part below a second exceeds the clock's |
| Deadline.CmpExact | rpc/rpc.cc:1056-1071 | comparison agrees with time if and only if equal instants are written alike; it never reverses two instants |
| Deadline.OneInstantTwoWays | rpc/rpc.cc:1080-1083 | a sum of add_timespec that compares as different from its own instant |
| Deadline.NextKeeps | rpc/rpc.cc:252-284 | one round keeps the invariant that ties deadlines, elapsed time and transmissions to the doubling timeout |
| Deadline.NextExact | rpc/rpc.cc:252-284 | one round waits until the doubled timeout or the final deadline, whichever is earlier, and ends the call exactly on a reply or at the final deadline |
| Deadline.WaitsExact | rpc/rpc.cc:218-285 | the same for every wait of every run, and exactly when the call is over |
| Deadline.SentExact | rpc/rpc.cc:226-283 | the request is transmitted once, and once more for each round that timed out on a dead channel |
| Deadline.DeadlineBound | rpc/rpc.cc:218-285 | in every run no wait ends past the final deadline, and there are at most r waits and r + 1 transmissions for the least r >= 1 with 1000 (2^r - 1) > to |
| Deadline.BoundReached | rpc/rpc.cc:218-285 | for every start and timeout some run makes exactly r waits and r + 1 transmissions |
| Deadline.BoundExists | rpc/rpc.cc:223-284 | every timeout has exactly one such r |
| Deadline.DoublingFits | rpc/rpc.cc:284 | a doubled timeout that is still waited for has not overflowed its 32 bits |
| Deadline.SetDeadline | rpc/rpc.cc:255-260 | the next wait ends at the final deadline if the doubled timeout would pass it, which is then used up |
| Deadline.WaitForReply | rpc/rpc.cc:218-285 | the loop, its timeout doubling in 32 bits, computes the transmissions and deadlines of the run and meets the bounds |
| Marshall.RoundTrip | rpc/rpc.cc:796-865 | decoding an encoded value of any type, nested vectors and maps included, gives it back and ends behind it |
| Marshall.BitsRoundTrip | rpc/rpc.cc:818-849 | signed and unsigned integers survive the cast to unsigned and back |
| Marshall.BodyRoundTrip | rpc/rpc.cc:896-904 | any list of typed values behind any header decodes to itself with okdone true |
| Marshall.PrefixFails | rpc/rpc.cc:906-915 | every strict prefix of a body decodes to not ok |
| Marshall.Cut | rpc/rpc.cc:985-1006 | what decodes from the beginning of a buffer decodes the same from the whole |
| Marshall.PutAssigns | rpc/marshall.h:248-255 | reading a repeated key gives it the new value and leaves the other keys alone |
| WireFormat.SmallLayout | rpc/rpc.cc:818-837 | one and two bytes of a number stand most significant first |
| WireFormat.WordLayout | rpc/rpc.cc:818-837 | four bytes of a number, read most significant first, are the number modulo 2^32 |
| WireFormat.LongLayout | rpc/rpc.cc:859-865 | eight bytes are the two words, the upper one first |
| WireFormat.BoolLayout | rpc/rpc.cc:796-803 | a truth value is one byte, 1 or 0 |
| WireFormat.StrLayout | rpc/rpc.cc:851-857 | a string is its length and then its bytes |
| WireFormat.VecLayout | rpc/marshall.h:209-216 | a vector is its length and then its elements in order |
| WireFormat.MapLayout | rpc/marshall.h:231-241 | a map is its size and then each key before its value |
| WireFormat.ReqLayout | rpc/marshall.h:81-94 | a request header is five words: xid, procedure, client nonce, server nonce, acknowledged xid |
| WireFormat.ReplyLayout | rpc/marshall.h:96-106 | a reply header is two words: xid and status |
| Marshall.Marshaller.constructor | rpc/marshall.h:51-56 | an empty body behind the header space |
| Marshall.Marshaller.RawByte | rpc/rpc.cc:771-781 | the byte is written inside the grown buffer and no other byte changes |
| Marshall.Marshaller.PutByte | rpc/rpc.cc:796-815 | appends one byte to the body, header untouched |
| Marshall.Marshaller.MakeRoom | rpc/rpc.cc:786-791 | the growth rule always covers the write, keeps the contents and stays within twice what is then held |
| Marshall.Marshaller.CopyIn | rpc/rpc.cc:792 | the bytes stand behind the head and nothing before it changes |
| Marshall.Marshaller.PutBytes | rpc/rpc.cc:783-794 | appends exactly the bytes to the body, header untouched |
| Marshall.Marshaller.PutInt | rpc/rpc.cc:818-865 | appends the integer most significant byte first |
| Marshall.Marshaller.WriteStr | rpc/rpc.cc:851-857 | appends length and bytes |
| Marshall.Marshaller.Write | rpc/rpc.cc:796-865 | appends the encoding of any typed value |
| Marshall.Marshaller.WriteVec | rpc/marshall.h:209-216 | the loop appends the count and every element in order |
| Marshall.Marshaller.WriteEntry | rpc/marshall.h:237-239 | appends key and value of one entry |
| Marshall.Marshaller.WriteMap | rpc/marshall.h:231-241 | the loop appends the count and every entry in order |
| Marshall.Marshaller.Pack | rpc/rpc.cc:867-874 | writes four bytes at the head and changes no other byte |
| Marshall.Marshaller.PackReqHeader | rpc/marshall.h:81-94 | writes the header between size word and body; both are unchanged, before or after the body is written |
| Marshall.Marshaller.PackReplyHeader | rpc/marshall.h:96-106 | the same for the shorter reply header |
| Unmarshall.ReqHeaderRoundTrip | rpc/marshall.h:173-185 | a packed request header unpacks to itself |
| Unmarshall.ReplyHeaderRoundTrip | rpc/marshall.h:187-196 | a packed reply header unpacks to itself |
| Unmarshall.RequestRoundTrip | rpc/marshall.h:81-185 | a whole request, header and arguments, is read back with okdone true |
| Unmarshall.ReplyRoundTrip | rpc/marshall.h:96-196 | a whole reply is read back with okdone true |
| Unmarshall.HeaderNeeds | rpc/marshall.h:173-196 | a request header unpacks if and only if there are 24 bytes, a reply header already from 12 on |
| Unmarshall.Unmarshaller.TakeContent | rpc/marshall.h:148-155 | the content stands behind the header space, ready to be read |
| Unmarshall.Unmarshaller.TakeIn | rpc/rpc.cc:886-894 | the other's buffer moves over, ok exactly if it holds a header |
| Unmarshall.Unmarshaller.OkayDone | rpc/rpc.cc:896-904 | true exactly if nothing failed and everything was read |
| Unmarshall.Unmarshaller.GetByte | rpc/rpc.cc:906-915 | reads the next byte, or fails for good at the end |
| Unmarshall.Unmarshaller.GetInt | rpc/rpc.cc:939-983 | reads the specified integer and cursor, failure included |
| Unmarshall.Unmarshaller.GetStr | rpc/rpc.cc:985-1006 | reads the specified string and cursor, with the 32-bit length check |
| Unmarshall.Unmarshaller.Read | rpc/rpc.cc:917-993 | reads the specified value of any type |
| Unmarshall.Unmarshaller.ReadVec | rpc/marshall.h:218-229 | the loop pushes the specified elements behind those that the target has |
| Unmarshall.Unmarshaller.ReadMap | rpc/marshall.h:243-257 | the loop reads the specified entries, a repeated key overwriting |
| Unmarshall.Unmarshaller.UnpackReqHeader | rpc/marshall.h:173-185 | reads the specified header and cursor |
| Unmarshall.Unmarshaller.UnpackReplyHeader | rpc/marshall.h:187-196 | reads the specified header and cursor |
| InBounds.StrayExact | rpc/rpc.cc:985-1006 | reading a string leaves the buffer if and only if its length and the position behind it reach 2^32; the object then stays ok and its head moves back |
| InBounds.StrayReached | rpc/rpc.cc:995-1006 | a message of 28 bytes on which it does |
| InBounds.IntReadExact | rpc/rpc.cc:906-983 | a number takes its bytes as far as they go; ok stays true if and only if all were there, and at the end the value is 0 |
| InBounds.StrReadExact | rpc/rpc.cc:985-1006 | a string that fits is read whole; one too long leaves the head behind its length and the object failed |
| InBounds.BoolReadExact | rpc/rpc.cc:917-922 | every byte but 0 reads as true |
| InBounds.FitsExact | rpc/rpc.cc:917-1006 | decoding any type leaves the buffer if and only if some string length met on the way wraps; until then the head only moves forward |
| InBounds.AllFitsExact | rpc/rpc.cc:917-1006 | the same for any list of arguments |
| InBounds.WrittenFits | rpc/rpc.cc:851-857 | nothing that marshall wrote makes a reader leave its buffer |
| InBounds.StraysOnNoTypes | rpc/rpc.cc:995-1006 | a message is safe for every receiver, whatever types it reads, if and only if no four bytes of its body wrap as a string length |
| Framing.Connection.WritePdu | rpc/connection.cc:222-244 | puts the next bytes of the size-stamped PDU on the stream and advances by as many, or fails |
| Framing.Connection.ReadCb | rpc/connection.cc:192-220 | reads the next piece, offers a complete PDU once and keeps it while it is refused; says whether its reads stay inside the buffer |
| Framing.Connection.ReadRest | rpc/connection.cc:284-295 | reads the next piece of the body as specified, keeping what came before |
| Framing.Connection.DoReadPdu | rpc/connection.cc:246-296 | the size field first, then the body, with every failure as specified |
| Framing.SizeReadExact | rpc/connection.cc:246-284 | between PDUs a read goes on exactly if a size field of at most MAX_PDU comes in one piece and no end follows; the size is then the one announced |
| Framing.BodyInsideExact | rpc/connection.cc:262-284 | for every size field that is let through and gets a buffer, the body is read inside it if and only if the size is at least 4 |
| Framing.ShortSizeReached | rpc/connection.cc:267-284 | a size field of 3 is let through and its body read leaves the buffer |
| Framing.ShortSizeStuck | rpc/connection.cc:192-296 | once a size below 4 is taken nothing more is read and nothing is offered |
| Framing.ReadsStayInside | rpc/connection.cc:246-296 | in every run of legal senders each read stays inside its buffer |
| Framing.EventKeeps | rpc/connection.cc:123-296 | every partial write, read, refusal and death keeps the stream equal to the frames still pending |
| Framing.FramingRoundTrip | rpc/connection.cc:123-296 | for every run each PDU handed to got_pdu is, intact, the first one sent and not yet consumed |
| Framing.DeliveredIntact | rpc/connection.cc:222-244 | for every run each PDU handed to got_pdu has the length and the bytes of the one sent, and its size field says that length |
| Framing.NothingLost | rpc/connection.cc:123-296 | while both ends live and nothing is in flight, everything sent has been consumed |
| Framing.SurvivalExact | rpc/connection.cc:246-296 | a read kills the connection if and only if a size field comes in pieces or the stream ends, except that inside a PDU an end met with an old EAGAIN in errno is missed |
| Fifo.FifoQueue.Enq | rpc/fifo.h:56-72 | appends if there is room, waits or refuses otherwise, and signals exactly when it appended |
| Fifo.FifoQueue.Deq | rpc/fifo.h:74-92 | removes the oldest item and signals when a bounded queue has space |
| Fifo.EnqOutcome | rpc/fifo.h:56-72 | in a run an item is appended if there is room, else a blocking producer waits with it and another is refused without a change |
| Fifo.EnqAgainOutcome | rpc/fifo.h:56-72 | a woken producer appends the item it came with, or waits on |
| Fifo.DeqOutcome | rpc/fifo.h:74-92 | a consumer gets the oldest item, or waits on an empty queue |
| Fifo.ItemKept | rpc/fifo.h:56-72 | no event changes the item a waiting producer came with |
| Fifo.EventKeeps | rpc/fifo.h:56-92 | every call and every wakeup, one thread or more per signal, keeps the count of woken threads sufficient |
| Fifo.NoLostWakeups | rpc/fifo.h:56-92 | in every run sleeping consumers imply as many woken ones as items, sleeping producers as many woken ones as free slots, the capacity holds and items leave in order |
| Fifo.QuietMeansDone | rpc/fifo.h:56-92 | once woken threads have run, consumers sleep only on an empty queue, producers only on a full one, never both |
| ThrPool.ThreadPool.AddJob | rpc/thr_pool.cc:53-61 | appends the job, or waits or refuses as the pool was made |
| ThrPool.ThreadPool.TakeJob | rpc/thr_pool.cc:63-68 | takes the oldest job and says whether it was work or a pill |
| ThrPool.TakeOutcome | rpc/thr_pool.cc:7-19 | a worker runs the job it took and takes none meanwhile; a pill ends it; other workers are untouched |
| ThrPool.QueueBounded | rpc/thr_pool.cc:23-24 | in every run at most 100 jobs wait per worker |
| ThrPool.WorkBeforePills | rpc/thr_pool.cc:7-68 | in every run jobs are taken in order, once each, and all before any pill |
| ThrPool.ShutdownDrains | rpc/thr_pool.cc:38-51 | after the destructor every worker has exited on one pill; all work is done and the queue empty if and only if there were workers or no work |
| ThrPool.NoWorkersNoWork | rpc/thr_pool.cc:23-51 | a pool of size 0 accepts a job and is destroyed with it still queued |
| ThrPool.ShutdownCanStep | rpc/thr_pool.cc:38-51 | a closing pool never deadlocks |
| ThrPool.ShutdownBounded | rpc/thr_pool.cc:38-51 | a closing pool takes boundedly many steps, whatever the schedule |
| PollMgr.SelectAIO.WatchFd | rpc/pollmgr.cc:149-167 | watches exactly the asked directions and keeps the highest descriptor a bound |
| PollMgr.SelectAIO.UnwatchFd | rpc/pollmgr.cc:182-215 | drops exactly the asked directions, the rescan keeps the bound, and says if nothing is watched |
| PollMgr.SelectAIO.Collect | rpc/pollmgr.cc:243-256 | lists every ready descriptor once, in order, except the pipe |
| PollMgr.PollManager.Add | rpc/pollmgr.cc:45-55 | watches the descriptor and sets its callback |
| PollMgr.PollManager.Del | rpc/pollmgr.cc:70-77 | clears the callback exactly when nothing is watched any more |
| PollMgr.PollManager.BeginRemove | rpc/pollmgr.cc:63-66 | unwatches both directions and leaves a request for the poll thread |
| PollMgr.PollManager.EndRemove | rpc/pollmgr.cc:66-68 | clears the callback once the wait is over |
| PollMgr.PollManager.AnswerRemovers | rpc/pollmgr.cc:98-103 | clears the request and broadcasts exactly if there was one |
| PollMgr.EventKeeps | rpc/pollmgr.cc:60-126 | every step of removers, users and the poll thread keeps removed descriptors out of its way |
| PollMgr.CallbackIsLastAdded | rpc/pollmgr.cc:45-77 | in every run a descriptor's callback, while it has one, is the one last added for it |
| PollMgr.DirectionsApart | rpc/pollmgr.cc:45-77 | adding or deleting one direction leaves the other and every other descriptor alone; the callback goes exactly when no direction is left |
| PollMgr.WatchedHasCallback | rpc/pollmgr.cc:45-77 | in every run in which nothing is added while its own remover waits, each watched descriptor has its callback |
| PollMgr.AddExact | rpc/pollmgr.cc:45-68 | after such a run, an add keeps that for all such futures if and only if no remover of its descriptor waits |
| PollMgr.CarelessReached | rpc/pollmgr.cc:60-68 | for every descriptor a run leaves it watched without a callback |
| PollMgr.ReadyRuns | rpc/pollmgr.cc:104-124 | the poll thread by itself gets to the callback of every descriptor it was told is ready |
| PollMgr.ReportedRuns | rpc/pollmgr.cc:104-124 | after every such run a watched descriptor that select reports gets its callback within the round |
| PollMgr.RequestExact | rpc/pollmgr.cc:63-103 | in every run the request flag stands if and only if some remover has not been answered |
| PollMgr.CallbackQuiescence | rpc/pollmgr.cc:57-68 | once block_remove_fd has returned, no callback of the descriptor runs or is due until it is added again |
| PollMgr.RemoverAnswered | rpc/pollmgr.cc:89-126 | from every reached state the poll thread's own steps, no more than its round has left and one, wake the remover |
| PollMgr.EarlyEndExact | rpc/pollmgr.cc:66-67 | whenever a remover's wait ends, its callback stays quiet in every future without a new add, spurious wakeups included, if and only if it is not running at that moment |
| PollMgr.EarlyEndReached | rpc/pollmgr.cc:60-68 | for every descriptor a run reaches a state where an early end returns too soon |
| PollMgr.WaitingWhileRunning | rpc/pollmgr.cc:60-68 | that run: the callback runs while its remover waits |
| DeadWrites.WindowExact | rpc/connection.cc:170-175 | from every state some future without a new add calls write_cb if and only if the callback is set and the descriptor is watched for writing or already due; on a dead connection that call aborts |
| DeadWrites.WindowCloses | rpc/connection.cc:66-81 | block_remove_fd leaves only what is already due and, once over, nothing; deleting the callback before dead_ is set, as read_cb and write_cb do, leaves nothing |
| DeadWrites.WindowReached | rpc/connection.cc:146-150 | for every descriptor a run has its write callback due while its remover waits |
| Directory.NumberRoundTrip | yfs_client.cc:148-150 | every 64-bit inum printed in decimal is parsed back |
| Directory.UnsignedReads | yfs_client.cc:207-211 | a printed number is read whatever follows it, unless it reaches 2^64 |
| Directory.SignedReads | yfs_client.cc:207-211 | a plus is skipped and a minus counts down from 2^64 |
| Directory.SpaceSkipped | yfs_client.cc:207-211 | space before a number is skipped |
| Directory.SpacesAre | yfs_client.cc:207-211 | the six characters that count as space |
| Directory.EntRoundTrip | yfs_client.cc:197-214 | a line written for a good name reads back as that entry |
| Directory.DirFindLoop | yfs_client.cc:167-195 | the getline loop computes the specified answer with offset and length, on every text |
| Directory.ReadDirLoop | yfs_client.cc:304-317 | the getline loop computes the specified listing, on every text |
| Directory.FindRendered | yfs_client.cc:167-195 | on a text of entries and blank lines dir_find reports the first line of that name and where it is |
| Directory.ReadRendered | yfs_client.cc:304-317 | readir lists the entries of such a text in order and skips blank lines |
| Directory.EraseRendered | yfs_client.cc:246 | erasing the reported range blanks exactly that line |
| Directory.BadNameNeverFound | yfs_client.cc:197-207 | no text answers a name with ':' or a newline |
| Directory.AddedIsFoundExactly | yfs_client.cc:147-151 | an added entry is found if and only if its name has no ':' and no newline |
| BadNames.FindListed | yfs_client.cc:167-195 | on every text dir_find finds exactly the names that readir shows |
| BadNames.AddedShows | yfs_client.cc:147-151 | between any readable lines and any later ones, an added entry shows what its own lines show, and hides the later ones if and only if one of its lines is unreadable |
| BadNames.ShownExactly | yfs_client.cc:147-151 | those lines show the entry and it alone if and only if the name is good, and otherwise only entries of other names |
| BadNames.ColonSplits | yfs_client.cc:197-214 | a name with ':' shows the part before it, with whatever number follows, or is unreadable |
| BadNames.BadNamesReached | yfs_client.cc:197-214 | the name a:b hides what comes later, the name a:1 puts the root under a |
| DirectoryMap.OpsKeep | yfs_client.cc:130-262 | any additions and removals keep text, entry list and map in step |
| DirectoryMap.TextRefinesMap | yfs_client.cc:130-324 | after any additions and removals dir_find answers as the map does, readir lists each live entry once in insertion order, and the reported range erases exactly the entry |
| Namespace.NewInum | yfs_client.cc:113-127 | the loop returns the first number drawn that is neither the parent nor 0 or 1, with bit 31 set exactly for files |
| Namespace.CandidateBits | yfs_client.cc:118-123 | a candidate is the 31 bits drawn under the kind bit; different draws or kinds never meet |
| Namespace.KeyKeepsKind | extent_server.cc:18-100 | the 32-bit key of an inum has the same kind |
| Namespace.ExtentServer.PutExtent | extent_server.cc:18-39 | stores buffer, size and times under the 32-bit key |
| Namespace.ExtentServer.GetExtent | extent_server.cc:41-56 | returns the buffer and touches only its access time |
| Namespace.ExtentServer.RemoveExtent | extent_server.cc:83-100 | drops the extent and says whether it was there |
| Namespace.YfsClient.DirAddEntry | yfs_client.cc:130-164 | EXIST with the old inum for a taken name, else an empty extent and a new last line |
| Namespace.YfsClient.RemoveEntry | yfs_client.cc:226-262 | drops extent and line together, IOERR for a missing name, NOENT for a missing extent, or throws with only the extent dropped |
| Namespace.CreateAnswers | yfs_client.cc:130-164 | the inum that create reports is the one then found under the name, its extent is empty, other names and extents stay |
| Namespace.ExistsAnswers | yfs_client.cc:152-156 | a taken name is reported with the inum that readir lists for it, and nothing changes |
| Namespace.UnlinkAnswers | yfs_client.cc:226-262 | after remove the name and its extent are gone, other names and extents stay; a missing name changes nothing |
| Namespace.MissingExtent | yfs_client.cc:130-262 | nothing happens in a directory, or to an entry, whose extent is missing |
| Namespace.WriteAnswers | extent_server.cc:18-56 | a write is read back and changes no other extent |
| Namespace.ErasesLine | yfs_client.cc:176-246 | on every text what remove erases is the entry's line up to its newline |
| Namespace.ThrowsExact | yfs_client.cc:176-246 | on every text removal throws if and only if no newline follows the entry |
| Namespace.ThrowReached | yfs_client.cc:327-348 | create, a resize of the directory and a removal that throws |
| Namespace.YfsClient.Lookup | yfs_client.cc:271-292 | OK with the inum if and only if the directory has the name |
| Namespace.YfsClient.ReadDirectory | yfs_client.cc:295-324 | the listing, OK even if an unreadable line ended it |
| Namespace.LinkedSound | yfs_client.cc:130-164 | linking an inum keeps a sound graph sound if and only if it was in no directory |
| Namespace.CreateExact | yfs_client.cc:130-164 | creating an entry keeps the name space invariant if and only if the drawn inum was in no directory |
| Namespace.ReusedInumBreaks | yfs_client.cc:113-127 | a number drawn twice gets two names, in every sound store |
| Namespace.ReuseReached | yfs_client.cc:113-127 | two creations from the empty file system that break the invariant |
| Namespace.UnlinkKeeps | yfs_client.cc:226-262 | removing a name succeeds and keeps the invariant |
| Namespace.WriteKeeps | yfs_client.cc:41-53 | writing an extent with bit 31 set keeps the invariant and every entry |
| Namespace.NamespaceSound | yfs_client.cc:113-262 | after any operations with unused inums: names unique per directory, entries name live extents, each inum in at most one place |
| Namespace.KindsAgree | yfs_client.cc:41-53 | after any operations bit 31 of every entry is the kind that was asked for when it was created, and it is kept as a directory if and only if mkadir made it |
| Namespace.KeysNeverMerge | extent_server.cc:18-100 | two entries with the same 32-bit key are the same entry |

## Left out

- FUSE glue, server start-up, test programs and scripts: callbacks into other systems.
- extent_client.cc and lock_client.cc: RPC stubs without state of their own.
- lock_server.cc: the server without caching, an easy special case that is not instantiated.
- handle.cc: binding is part of RPC delivery in the lock model.
- Fairness and timing of the lock service: every thread can still come to hold the lock (`NoThreadStuck`), but that it does depends on the scheduler; which condition variable is signalled and the release timer only decide when a blocked step happens, and the model lets it happen at any time.
- `extent_server::getattr`, `resize`, `getbuf`, `putbuf` and the read and write offsets of `yfs_client`: in the name space a write replaces an extent's contents.
- Locking inside `yfs_client`: each directory operation is one step, as the parent's lock makes it.
- `EPollAIO`, sockets, and `pthread` internals.
- `rpcs::dispatch`: who frees a reply buffer, and connection reference counts.
- Restarted servers: `AtMostOnce.dfy` has one server instance, so the check of `srv_nonce` does not appear.
- The lossy test mode of `connection::send`: the sender's end may die at any time instead.
- Marshall.Marshaller.MakeRoom: capacities are unbounded integers; they stay within twice what is held, so the source's int overflows only for messages over 2^30 bytes.
- Marshall.Marshaller.WriteMap: a map is the list of its entries in iteration order, so the key order of std::map is not modelled.
