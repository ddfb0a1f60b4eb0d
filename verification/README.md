# Verified model of the chat room's network core and server tables

The chat room is a C++ server and client over a small event-driven network library.
This project models the parts of it that are state machines, and proves what they keep
over whole runs:

- **Buffer.dfy** - the input/output buffer: an array and two indices that refine a plain
  byte sequence through growing, sliding in place and scatter reads.
- **CodecSpec.dfy, JsonCodec.dfy** - the stream decoder that switches between CR LF
  delimited JSON lines and length-prefixed raw file bytes, for the server and the client.
- **EventLoop.dfy** - the cross-thread functor queue and its eventfd wakeup.
- **TimerQueue.dfy** - the timer queue, its two ordered sets, the timerfd, and callbacks
  that add and cancel timers while they run.
- **TcpConnection.dfy** - partial writes, write interest and the half-close.
- **Channel.dfy, Poller.dfy, EPoller.dfy** - the index bookkeeping of the two pollers.
- **ThreadPool.dfy** - the worker pool.
- **Groups.dfy, Friends.dfy** - the group tables with the in-memory roster, and the
  friend table, under their handlers.
- **SqlText.dfy, History.dfy** - the batched flush of the chat history and the SQL text
  it writes.

Where the source updates an object in place there is a class, and each method's contract
equates the new state with a function of the old one; the theorems over whole runs are
lemmas about those functions, and the accounts they speak of (what was asked, given, sent,
taken by the kernel) are read off the events, not off the state. The event loop, the worker pool and a connection's calls from
several threads are step machines: every test, push, lock, wakeup and notification is a step
of its own, and an event sequence is an interleaving. Foreign calls are parameters: what `readv` and `write` return, the clock, the
allocator's block, whether a file opens, the JSON library, and the database's answers.

`dafny verify dfyconfig.toml` checks everything.

## What turned out not to hold

The code is modelled as it is. These properties fail, and the condition under which they
hold is proved:

- A file that cannot be opened makes `onMessage` return with bytes still in the buffer, so
  how the stream was cut becomes visible. Exactly which cuts show, for any bytes and any
  state, is `CodecSpec.CutShowsExactlyWhen`; that none shows for any stream if and only if no
  open can fail is `CodecSpec.IndependentExactlyWhenAllOpen`.
- Work queued by the loop thread before `loop()` causes no wakeup: `EventLoops.PollSleepsExactlyWhen`
  says of every poll when it sleeps on queued work (shortest run: `EventLoops.EarlyPushSleeps`).
  A `quit()` before `loop()` is forgotten (`EventLoops.EarlyQuitIsForgotten`):
  `EventLoops.QuitCountsExactlyWhen` says which quits count, and `EventLoops.QuitStopsTheLoop` after
  how many rounds one that counts stops the loop.
- `addTimer` returns an id with sequence 0, which matches no timer, and nothing is ever put
  into `m_cancelingTimers`: `cancel` with a public id does nothing, and a repeating timer
  cancelled from its own callback goes on. Over every run with such ids no repeating timer
  ever goes away (`TimerQueues.Run`, `TimerQueues.TimerQueue.CancelInLoop`).
- `send` tests the state without a lock, so a message can be accepted after shutdown has begun,
  and even after the half-close. What a run accepts from then on is exactly what the loop
  thread's own send in progress and the queued sends it runs carry (`TcpConnections.AcceptedLate`),
  and the latter had passed their test before (`TcpConnections.QueuedSendsHadPassed`). So it is
  something in some run if and only if a non-empty send is queued, or has passed its test, when
  shutdown begins (`TcpConnections.AcceptedLateExactlyWhen`).
- The poll(2) poller leaves a once disabled fd negated when it is enabled again
  (`Pollers.DisableThenEnable`), and a removed channel keeps its index, so that the assertions of
  its next update fail (`Pollers.RemovedIsStale`). `Pollers.RunCalls` says over every run for which
  channels they would, and which slots are negated; `Pollers.StandingExactly` reads both off the
  calls made.
- Approving somebody who made no request spoils the roster, and approving the master
  demotes him (`Groups.ExactKeptExactlyWhen`, `Groups.MasterLostExactlyWhen`).
- A flush does not bring in every cached record. A batch in which no string is a record is a
  syntax error. A message with a NUL character cuts its statement off inside a literal, because
  the text is passed on as a C string, and that is a syntax error too (`SqlText.SentRoundTrip`).
  Either loses the whole flush. JSON without the expected fields throws out of both flushes, and
  what is no JSON out of the private one. `History.FateExactly` says exactly when a flush commits,
  throws and rolls back.

## Model

| member | source | states |
|---|---|---|
| Buffers.Buffer.constructor | project/m_netlib/Net/Buffer.h:20-28 | a new buffer is empty, with 8 bytes in front and 1024 behind |
| Buffers.Buffer.FindCRLF | project/m_netlib/Net/Buffer.h:36-41 | the first CR LF of the readable bytes, or nothing |
| Buffers.Buffer.Retrieve | project/m_netlib/Net/Buffer.h:50-61 | drops exactly the first n readable bytes; emptying the buffer restores the 8 spare bytes |
| Buffers.Buffer.RetrieveUntil | project/m_netlib/Net/Buffer.h:63-67 | drops the readable bytes before a position |
| Buffers.Buffer.RetrieveAsString | project/m_netlib/Net/Buffer.h:74-78 | hands out everything readable and leaves nothing |
| Buffers.CopyDown | project/m_netlib/Net/Buffer.h:130 | the forward copy onto an overlapping lower range moves the bytes intact |
| Buffers.Buffer.MakeSpace | project/m_netlib/Net/Buffer.h:124-135 | growing or sliding keeps the readable bytes, makes the room asked for, and its assertions hold |
| Buffers.Buffer.EnsureWritableBytes | project/m_netlib/Net/Buffer.h:88-93 | afterwards the room is there and no readable byte changed |
| Buffers.Buffer.Append | project/m_netlib/Net/Buffer.h:95-99 | the bytes come after those already readable |
| Buffers.Buffer.Prepend | project/m_netlib/Net/Buffer.h:105-110 | the bytes come in front of those already readable |
| Buffers.Buffer.ReadFd | project/m_netlib/Net/Buffer.cc:10-30 | whatever readv delivered, split over tail and spill area, is appended in order; errors change nothing |
| Buffers.RunOps | project/m_netlib/Net/Buffer.h:50-135 | any sequence of calls, from any state, acts like the byte sequence up to the first call that breaks the assertion on its own argument (or a read that delivers more than was offered), if there is one; no other assertion is ever tripped |
| Buffers.CheapPrependFits | project/m_netlib/Net/Buffer.h:17-28 | on a buffer nothing was ever prepended to, the next prepend fits if it has at most 8 bytes, whatever was appended, read and retrieved |
| Buffers.FirstCrlfStable | project/m_netlib/Net/Buffer.h:36-41 | more bytes behind never move the first CR LF |
| CodecSpec.Step | project/ServerJsonCodec.h:32-106 | termination: an iteration consumes bytes, or leaves file mode without consuming (a file with nothing left) |
| CodecSpec.RunExtends | project/ServerJsonCodec.h:31-107 | with more bytes behind a buffer, in every mode and at every cut: a run that ends with the loop goes on as if it had had them all, one that returns leaves them untouched |
| CodecSpec.CutShowsExactlyWhen | project/ServerJsonCodec.h:54-59 | for any state, bytes and cut: two calls differ from one if and only if the first call returned early and left something the loop can go on with |
| CodecSpec.AnyCutting | project/ServerJsonCodec.h:31-107 | fragmentation independence from any state: if one call over the whole stream leaves nothing the loop can go on with, every cutting gives the same events, files, mode and leftover |
| CodecSpec.AnyCuttingWhenAllOpen | project/ServerJsonCodec.h:31-107 | fragmentation independence for every stream and every cutting when files open |
| CodecSpec.IndependentExactlyWhenAllOpen | project/ServerJsonCodec.h:54-59 | fragmentation independence holds if and only if no nameable file can fail to open |
| CodecSpec.FailedOpenBreaksIndependence | project/ServerJsonCodec.h:55-59 | the same two lines in one chunk and in two give different results when the open fails |
| CodecSpec.RoundTrip | project/client/clientService.cc:1263-1328 | any list of messages, files that open and other lines, encoded as the sender does, decodes under any chunking to that list, whatever bytes the files hold, with one shutdown for each line that is no JSON and the heartbeat switched on the server only |
| CodecSpec.RunBadLine | project/ServerJsonCodec.h:80-83 | a line that is no JSON costs nothing but itself: what is behind it is decoded as if it had not been there |
| CodecSpec.RunEscape | project/ServerJsonCodec.h:43-48 | JSON without the fields asked for ends everything: nothing behind it is looked at, on this call or a later one |
| CodecSpec.RunUpload | project/client/clientService.cc:1263-1319 | metadata line, raw bytes and end line give back the file, empty files included |
| JsonCodecs.JsonCodec.OnMessage | project/ServerJsonCodec.h:31-107 | the loop over the real buffer computes the decoding function for its connection and touches no other |
| JsonCodecs.JsonCodec.OnLine | project/ServerJsonCodec.h:42-83 | every branch of the handler of one line, with parse errors and escaping exceptions |
| JsonCodecs.JsonCodec.OnData | project/ClientJsonCodec.h:81-97 | takes the smaller of what is there and what is left, and closes the file when nothing is left |
| JsonCodecs.Serve | project/m_netlib/Net/TcpConnection.cc:52-66 | chunk after chunk through one buffer equals feeding the chunks to the decoding function |
| EventLoops.ExactlyOnceFifo | project/m_netlib/Net/EventLoop.cc:149-182 | in every interleaving executed ++ batch ++ pending is what the calls of queueInLoop were given, in order, and as many functors were executed as were run |
| EventLoops.CounterExactly | project/m_netlib/Net/EventLoop.cc:184-202 | the eventfd counter is the number of writes since the last read, every report of it leads to a read, and exactly those threads still have to write it that queued or asked to quit and did not |
| EventLoops.LoopIsNeverStuck | project/m_netlib/Net/EventLoop.cc:83-91 | a started loop that has not stopped can always go on by itself |
| EventLoops.NoLostWakeup | project/m_netlib/Net/EventLoop.cc:77-202 | about to poll with work or a quit outstanding, the eventfd is positive or a thread is about to write it |
| EventLoops.PollSleepsExactlyWhen | project/m_netlib/Net/EventLoop.cc:149-161 | whenever the loop is about to poll, it sleeps on queued work if and only if this is its first poll, the owner queued something before loop(), and no other thread did anything |
| EventLoops.BacklogIsServed | project/m_netlib/Net/EventLoop.cc:83-91 | what was queued on entering poll has been executed when the loop comes back there |
| EventLoops.QuitCountsExactlyWhen | project/m_netlib/Net/EventLoop.cc:77-103 | in every interleaving the flag is set if and only if some thread asked to quit and loop() did not begin after that |
| EventLoops.QuitStopsTheLoop | project/m_netlib/Net/EventLoop.cc:81-94 | once the flag is set after loop() cleared it, no further round ends if the loop is about to test it (before its first round or after one), else exactly the round it is in, and then the loop stops |
| EventLoops.EarlyQuitIsForgotten | project/m_netlib/Net/EventLoop.cc:77-81 | whatever was asked before loop(), no quit is pending once it has begun |
| EventLoops.EarlyPushSleeps | project/m_netlib/Net/EventLoop.cc:159-161 | a functor queued by the owner before loop() is still queued, with no wakeup on the way, when the first poll begins |
| EventLoops.QuitIsNoticed | project/m_netlib/Net/EventLoop.cc:98-103 | a loop about to poll with a quit that counts has a wakeup on the eventfd or on its way |
| EventLoops.NextKeepsInv | project/m_netlib/Net/EventLoop.cc:148-202 | every single step of any thread keeps the wakeup invariant |
| TimerQueues.HowMuchTimeFromNow | project/m_netlib/Net/TimerQueue.cc:23-33 | the timespec is exactly the delay of at least 100 microseconds, normalised, and never the all-zero value that disarms |
| TimerQueues.SetsHaveSameSize | project/m_netlib/Net/TimerQueue.cc:98 | the size assertion: the two sets have equally many elements |
| TimerQueues.TimerQueue.InsertTimer | project/m_netlib/Net/TimerQueue.cc:176-202 | both insertions succeed, order and agreement are kept, and the result says whether the earliest time changed |
| TimerQueues.TimerQueue.AddTimerInLoop | project/m_netlib/Net/TimerQueue.cc:87-94 | the timer enters both sets, ownership passes from the functor to the sets, and the timerfd is set for it if it is the earliest and else left alone |
| TimerQueues.TimerQueue.AddTimer | project/m_netlib/Net/TimerQueue.cc:75-81 | the new timer is queued and its id carries sequence 0 |
| TimerQueues.TimerQueue.CancelInLoop | project/m_netlib/Net/TimerQueue.cc:96-115 | removes and frees exactly the queued timer with this address and sequence; otherwise, and always for sequence 0, nothing changes |
| TimerQueues.TimerQueue.GetExpired | project/m_netlib/Net/TimerQueue.cc:135-152 | the batch is the prefix of timers due at now, in order, and leaves both sets |
| TimerQueues.TimerQueue.RunBatch | project/m_netlib/Net/TimerQueue.cc:126-128 | whatever the callbacks add or cancel, no timer of the batch in flight is changed or freed |
| TimerQueues.TimerQueue.Reset | project/m_netlib/Net/TimerQueue.cc:154-174 | repeating timers, and no others, return with expiration now + interval, others are freed once, and the timerfd is set for exactly the earliest positive expiration, or left alone if there is none |
| TimerQueues.TimerQueue.HandleRead | project/m_netlib/Net/TimerQueue.cc:117-133 | for every script of re-entrant calls: one owner each, agreeing sets, the timerfd read and set for exactly the earliest positive expiration; a timer of the batch is queued again if it repeats and else freed, of the others exactly those that a callback cancelled are gone, and what callbacks added is queued |
| TimerQueues.AddedIsQueued | project/m_netlib/Net/TimerQueue.cc:75-94 | an addition queues exactly this timer, with its data and a sequence newer than all others, and keeps the rest |
| TimerQueues.TimerQueue.Destroy | project/m_netlib/Net/TimerQueue.cc:204-209 | frees every queued timer once; only those still on their way in remain allocated |
| TimerQueues.Run | project/m_netlib/Net/TimerQueue.cc:75-202 | ownership, agreement and arming over every run, with no use after free and no double free; a queued timer is gone at the end if and only if some event ended it: a cancel with its true sequence (by a callback, only while it is not in the batch itself; never sequence 0), or, for a one-shot, a read that ran it; and the timerfd expires for the earliest timer, not before it, unless the loop thread cancelled since the last read |
| TimerQueues.RemoveKeepsCover | project/m_netlib/Net/TimerQueue.cc:96-115 | an alarm early enough for the earliest timer stays so when any timer is cancelled |
| TcpConnections.OutputConserved | project/m_netlib/Net/TcpConnection.cc:129-180 | under any partial or failed writes, bytes on the wire ++ buffered = bytes accepted; write interest against buffered output |
| TcpConnections.KernelGetsTheMessages | project/m_netlib/Net/TcpConnection.cc:129-180 | what the kernel took, write by write as write reported it, ++ what is buffered = the messages given to sendInLoop; and it took as many bytes as the writes reported |
| TcpConnections.DrainStep | project/m_netlib/Net/TcpConnection.cc:157-180 | a write event takes exactly what write reported off the front of the buffer, and nothing on failure |
| TcpConnections.EverySendOnce | project/m_netlib/Net/TcpConnection.cc:119-127 | every send called on a connected connection, on whatever thread, is given to sendInLoop once or is still on its way, and nothing else is |
| TcpConnections.StateExactly | project/m_netlib/Net/TcpConnection.cc:83-118 | the state is Connected exactly from the establishment to the first step of a shutdown, forced close or end that sets it; and every half-close has its step |
| TcpConnections.InterestExactly | project/m_netlib/Net/TcpConnection.cc:31-75 | there is read interest exactly from the establishment to the first step that closes |
| TcpConnections.GracefulShutdown | project/m_netlib/Net/TcpConnection.cc:83-88 | with calls on the loop thread (and forced closes from any) the half-close happens at most once, only with everything written, and the drain performs it |
| TcpConnections.NothingAfterHalfClose | project/m_netlib/Net/TcpConnection.cc:112-127 | once shutting down, with no send that has passed its test, no call on the loop thread makes the connection accept a byte |
| TcpConnections.AcceptedLate | project/m_netlib/Net/TcpConnection.cc:119-131 | over every run of all threads from when shutdown has begun, the bytes accepted are exactly the loop thread's own send in progress and the messages of the queued sends the loop has run |
| TcpConnections.QueuedSendsHadPassed | project/m_netlib/Net/TcpConnection.cc:119-127 | every send queued after shutdown has begun had passed the test of the state before |
| TcpConnections.AcceptedLateExactlyWhen | project/m_netlib/Net/TcpConnection.cc:119-131 | some run accepts something after shutdown has begun if and only if a non-empty send is queued, or has passed its test on some thread, at that moment |
| TcpConnections.LateSendIsReachable | project/m_netlib/Net/TcpConnection.cc:119-131 | two such runs for every non-empty message: queued before the half-close, and queued after it |
| TcpConnections.HandleAll | project/m_netlib/Net/TcpConnection.cc:83-180 | over its real buffer the object goes through every run as the functions do |
| TcpConnections.TcpConnection.DoSendInLoop | project/m_netlib/Net/TcpConnection.cc:129-155 | the method over the real buffer is the send function, and keeps conservation |
| TcpConnections.TcpConnection.DoHandleWrite | project/m_netlib/Net/TcpConnection.cc:157-180 | the method over the real buffer is the write-event function |
| TcpConnections.TcpConnection.DoShutdown | project/m_netlib/Net/TcpConnection.cc:83-88 | half-closes at once without write interest, else leaves it to the drain or the queue |
| Pollers.Poller.UpdateChannel | project/m_netlib/Net/Poller.cc:48-76 | the bijection is kept; a slot is negated if and only if its channel was ever updated without events since it was added |
| Pollers.Poller.RemoveChannel | project/m_netlib/Net/Poller.cc:78-101 | swap with last: the bijection is kept and the last channel's index points at the gap |
| Pollers.RunCalls | project/m_netlib/Net/Poller.cc:48-101 | over every sequence of calls on distinct channels, which may use one fd after the other, each channel in the map has its own slot with the events and the sign its calls gave it, there are no other slots, and the assertions of an update hold for exactly the channels that are in, or new and whose fd no other channel in the map has |
| Pollers.StandingExactly | project/m_netlib/Net/Poller.cc:53-100 | a channel is stale if and only if some call removed it; else its slot has the events of its last update whose assertions held, and is negated if and only if some such update but the first had no events |
| Pollers.RemovedIsStale | project/m_netlib/Net/Poller.cc:78-101 | adding and removing a channel leaves it with an index no update accepts |
| Pollers.FdIsHandedOver | project/m_netlib/Net/Poller.cc:53-62 | a second channel gets the fd of the first after that was removed, and is refused before |
| Pollers.RemoveKeepsGood | project/m_netlib/Net/Poller.cc:88-100 | swap-remove keeps slots and indices inverse to each other and loses no other slot |
| Pollers.Poller.FillActiveChannels | project/m_netlib/Net/Poller.cc:34-46 | stopping after numEvents, every ready channel is reported once, in slot order, with its events |
| Pollers.ReadyMembers | project/m_netlib/Net/Poller.cc:34-46 | an fd is reported exactly when its slot has events |
| Pollers.ReadyDistinct | project/m_netlib/Net/Poller.cc:34-46 | no fd is reported twice |
| Pollers.DisableThenEnable | project/m_netlib/Net/Poller.cc:68-74 | a channel disabled and enabled again keeps a negated slot |
| EPollers.EPoller.UpdateChannel | project/m_netlib/Net/EPoller.cc:68-95 | exactly one epoll_ctl, never refused; index kAdded if and only if registered, with the last mask |
| EPollers.EPoller.RemoveChannel | project/m_netlib/Net/EPoller.cc:97-112 | a registered fd is deleted, an unregistered one is not, and the index is new again |
| EPollers.RunCalls | project/m_netlib/Net/EPoller.cc:68-128 | over every sequence of calls on distinct channels, which may use one fd after the other, the kernel refuses nothing; each channel's index, events, registration and mask are what its calls made of them, the assertions of the next update hold for exactly the channels that are in or whose fd no other has, and nothing else is registered |
| EPollers.StandingExactly | project/m_netlib/Net/EPoller.cc:68-112 | the last call that did something to a channel decides: out after a removal, in after an update with its events, unregistered exactly when that update took the events of a registered channel away |
| EPollers.HandOver | project/m_netlib/Net/Connector.cc:89-103 | a connector's channel is registered, disabled and removed, and the connection's own channel then registered on the same fd: ADD, DEL, ADD |
| EPollers.Teardown | project/m_netlib/Net/EPoller.cc:68-112 | enable, disable twice and remove issue ADD, DEL, ADD with an empty mask, DEL, and leave the kernel as it was |
| ThreadPools.FifoExactlyOnce | project/threadpool/threadpool.cc:17-21 | tasks are taken in the order enqueue was given them, refused ones left out, and each taken one is being run or was run once |
| ThreadPools.EventsTell | project/threadpool/threadpool.h:39-47 | what was accepted, taken and finished, who still has to notify, who exited and how far the destructor is are what the events say |
| ThreadPools.AcceptedIsNotified | project/threadpool/threadpool.h:39-47 | before stop a push is accepted, and its thread then has to notify |
| ThreadPools.NoLostNotification | project/threadpool/threadpool.h:39-47 | queued work is known to an awake or busy worker, or a notification is outstanding |
| ThreadPools.ShutdownDrains | project/threadpool/threadpool.cc:27-38 | workers leave only after stop with an empty queue; after the join every task that enqueue accepted has been run once |
| ThreadPools.JoinIsBounded | project/threadpool/threadpool.cc:33-37 | once everyone is notified, every interleaving without new enqueue attempts has boundedly many steps |
| ThreadPools.JoinIsNeverStuck | project/threadpool/threadpool.cc:33-37 | and some step is possible until all are joined |
| ThreadPools.WorkIsNeverStuck | project/threadpool/threadpool.cc:12-14 | with tasks queued, some worker, producer or destructor step is always possible |
| ThreadPools.OpenPoolDrains | project/threadpool/threadpool.cc:7-22 | from any reachable state of an open pool, every interleaving without new enqueue attempts has boundedly many steps, and where none is left every task that enqueue was given has been run exactly once |
| Groups.SingleMaster | project/server/service.cc:437-506 | over every run at most one master per group id, and only requests for ids that are no group's |
| Groups.RolesFollowTheRules | project/server/service.cc:437-869 | a step changes each row as a table of roles says (who may create, request, approve, promote, demote, kick, quit, dissolve), and no other row |
| Groups.CreatorIsMaster | project/server/service.cc:446-449 | after a creation the creator is the master if and only if no other row of theirs was in the way |
| Groups.MastersAreCreators | project/server/service.cc:437-506 | over every run nobody is a master who did not create the group |
| Groups.ListsFollowTheRules | project/server/service.cc:437-869 | what a step does to each list of the roster: somebody joins at the end, somebody leaves, the list goes, or nothing |
| Groups.RosterCoversMembers | project/server/service.cc:593-613 | every member row is in the roster, so the unguarded find on quit is valid |
| Groups.RosterIsExact | project/server/service.cc:561-591 | with only requesters approved and only existing groups requested, each list is the member set without duplicates |
| Groups.ExactKeptExactlyWhen | project/server/service.cc:561-591 | a step keeps an exact roster if and only if an officer approves a requester and a creator holds no request for the new id |
| Groups.MasterLostExactlyWhen | project/server/service.cc:746-869 | the master role is lost if and only if by dissolving, kicking oneself, or being approved |
| Groups.RestartRepairs | project/server/service.cc:60-74 | after any run, rebuilding the roster from the tables makes it exact |
| Groups.GroupService.GroupUserListMapInit | project/server/service.cc:60-74 | over any tables with at most one master per group, members only in groups and an empty roster, the init loop builds the lists the queries return, and the roster is exact |
| Groups.StartAgain | project/server/service.cc:60-74 | a new process over the tables of any state that runs reach ends where the restart step ends |
| Groups.HandleAll | project/server/service.cc:437-869 | the handlers go through every run as the steps do, restarts included |
| Groups.GroupService.HandleCreateGroup | project/server/service.cc:437-460 | a new group, its creator as master (unless an old request of theirs for that id blocks the row) and in the roster; nothing when the insert fails |
| Groups.GroupService.RequestAddGroup | project/server/service.cc:480-506 | a request row, unless the user has any row for that group; also for a group that does not exist |
| Groups.GroupService.HandleAddSomeoneToGroup | project/server/service.cc:561-591 | asked by a master or manager, the user's row (whatever its role) becomes normal and the user joins the roster, even without a row; asked by anybody else, nothing |
| Groups.GroupService.HandleQuitGroup | project/server/service.cc:593-613 | a manager or normal member loses the row and every place in the roster, whose lookup is valid; a master, a requester or a stranger changes nothing |
| Groups.GroupService.HandleSetManager | project/server/service.cc:694-724 | a normal member becomes manager, whoever asks; any other row stays |
| Groups.GroupService.HandleCancelManager | project/server/service.cc:726-744 | a manager becomes a normal member, whoever asks; any other row stays |
| Groups.GroupService.HandleKickSomeoneInGroup | project/server/service.cc:746-807 | a master takes out any member, himself included, and a manager only normal members, from the table and the roster; nobody else takes out anyone, and no request is touched |
| Groups.GroupService.HandleGroupChat | project/server/service.cc:821-850 | every other member is among the receivers, and with an exact roster nobody else and nobody twice |
| Groups.GroupService.HandleMasterDeleteGroup | project/server/service.cc:852-869 | asked by the master, the group, all its rows (requests too) and its roster list go; asked by anybody else, nothing |
| Friends.FriendshipIsMutual | project/server/service.cc:207-330 | friendship and blocking are two-sided, a request excludes a row the other way, nobody is their own friend |
| Friends.FriendsBothAsked | project/server/service.cc:207-288 | two users are friends only if each asked for the other, and no successful deletion came after |
| Friends.RowsFollowTheRules | project/server/service.cc:207-330 | a step changes the row of one user for another as the two rows between them say, and no other row: blocking and unblocking only the caller's own |
| Friends.BlockedExactlyWhen | project/server/service.cc:290-330 | over every run somebody has another blocked if and only if they blocked a friend, and neither unblocked them nor lost the friendship since |
| Friends.SecondRequestBefriends | project/server/service.cc:240-263 | the request that answers a request makes both rows friends |
| Friends.FriendService.HandleAddFriend | project/server/service.cc:207-264 | when neither user has a row for the other, the caller's request is stored; when only the other has one, and it is a request, both rows become friend; else nothing |
| Friends.FriendService.HandleDeleteFriend | project/server/service.cc:266-288 | both rows go if each is friend or block, else neither |
| Friends.FriendService.HandleBlockFriend | project/server/service.cc:290-309 | the caller's own row goes from friend to block, and from nothing else; the other side's row stays |
| Friends.FriendService.HandleUnBlockFriend | project/server/service.cc:311-330 | the caller's own row goes from block to friend, and from nothing else; the other side's row stays |
| SqlText.EscapeSQLString | project/model/historyCasheManager.h:70-89 | the loop computes the character-wise escape function |
| SqlText.ReadEscaped | project/model/historyCasheManager.h:70-89 | an escaped string between quotes is read back as it was by MySQL's rules, whatever it holds |
| SqlText.StatementRoundTrip | project/model/historyCasheManager.h:116-140 | a statement is read as exactly the rows it was built from; from no rows it is a syntax error |
| SqlText.SentRoundTrip | project/database/database.cc:41-43 | sent as a C string it still arrives as those rows, unless some row holds a NUL: then it is a syntax error |
| SqlText.CutLiteral | project/database/database.cc:41-43 | a literal that holds a NUL loses its closing quote |
| History.CacheManager.Store | project/model/historyCasheManager.h:24-52 | the dumped record is appended to the cache, and the cache parses to one record more |
| History.CacheManager.BuildStatement | project/model/historyCasheManager.h:183-213 | the group inner loop writes the statement of the batch's records, commas between them only, or throws if and only if some string is JSON without the expected fields |
| History.CacheManager.BuildStrictStatement | project/model/historyCasheManager.h:116-140 | the private inner loop: the same text, or an exception if and only if some string is no record |
| History.CacheManager.FlushGroupChatCache | project/model/historyCasheManager.h:158-229 | all or nothing, in order, the cache emptied first: commits if and only if no string throws and every batch is accepted, holds a record and no NUL; throws if and only if some string does and every batch that ends before it gets in; else rolls back |
| History.CacheManager.FlushPrivateChatCache | project/model/historyCasheManager.h:91-156 | the same, where a string that is no JSON throws too |
| History.FateExactly | project/model/historyCasheManager.h:115-152 | the loop over the batches, one after the other, commits, throws or rolls back exactly on those conditions |
| History.WhatThrows | project/model/historyCasheManager.h:120-130 | JSON without the fields throws out of both flushes, what is no JSON out of the private one only, and nothing else throws |
| History.InsertsExactlyWhen | project/model/historyCasheManager.h:182-222 | a batch's statement succeeds if and only if the server accepts it, some string in it is a record, and no record in it holds a NUL |
| History.StoreAndFlush | project/model/historyCasheManager.h:24-229 | what is stored is what arrives: the table gains exactly the stored messages in order if the server takes every hundred and none holds a NUL, else nothing; both flushes agree |

## Left out

- Sockets, addresses, the acceptor and the real poll, epoll, timerfd and eventfd: foreign calls, present only as parameters or a small kernel state.
- The JSON library: only that it reads back what it wrote and that compact output holds no CR. A negative or fractional `filesize` and invalid UTF-8 in a message are not modelled.
- A JSON value without the expected fields is an exception that ends the process; after it the codec model handles nothing more.
- Concurrent handlers: group and friend handlers run one at a time, and nothing is pushed to the history list while a flush reads and trims it.
- Races on the codec's table of file transfers, which all I/O threads share.
- Group ids are never reused, and every user id in the tables belongs to a user; database calls of the group and friend handlers do not fail, except for duplicate keys and group names.
- 64-bit overflow of timestamps, sizes and the eventfd counter; the difference between the wall clock and the timerfd's monotonic clock; fractions of a microsecond in timer intervals.
- TimerQueues.TimerQueue.HandleRead: assumes a clock past 1970, because a batch taken at a non-positive time could leave a timer that `reset` takes for invalid.
- TcpConnections.OutputConserved: excludes the file bytes that the server and the client write to the socket directly with sendfile.
- CodecSpec.RoundTrip: assumes that the uploaded files open; the end line may come alone, as when the file's size was reached before it.
- The write-complete callback that a connection queues when everything is written; poll(2) timing out or failing.
- The counter of timer sequences is one for all loops; here each queue has its own, without the gaps.
- Calling `loop()` again after it has stopped.
- A flush that throws leaves its transaction open and its connection out of the pool.
- Exceptions thrown by callbacks, functors and tasks.
- Session maps, the heartbeat sweep, the connector's backoff, round-robin loop choice, history listing, and the client's menus.
