# A Dafny model of libevent's core

This project models the hard parts of libevent 2.1.8, the event library that shadowsocks-android
bundles under `core/src/main/jni/libevent`, and proves what they are for.

- **Buffers** (`Chunks`, `EvBuffers`, `Expansion`, `Searching`, `Lines`, `BufferRuns`, `Links`). An
  evbuffer is a list of partly filled chunks with two cached pointers and a cached length. `Consistent`
  is the shape invariant: every chunk up to the last one with data has data, every later one is empty,
  windows lie inside their chunks, `last` and `last_with_datap` point where they should, and the cached
  length is right. Every operation repairs it by hand; every run refines a run on flat byte strings.
  `Links` goes down to the next pointers: the writes by which lists are relinked leave nothing dangling
  and leak nothing.
- **Descriptors** (`EpollTable`, `EvMap`, `EvMapRuns`). Per-descriptor counts drive a deferred,
  coalesced change list that a table turns into `epoll_ctl` calls. The deferred backend agrees with the
  immediate one and with the registered events.
- **Lookups** (`GetAddrInfo`, `GetAddrInfoRuns`, `GetAddrInfoRequest`). The two-request `getaddrinfo`
  machine as a state machine over its callbacks, its timer, cancel and the shutdown of the resolver, and
  a class that refines it. Every run that does not use a dead resolver calls back and frees exactly once;
  which runs those are is proved too.
- **Names and requests** (`DnsNames`, `DnsMessage`, `RequestTable`, `RequestRuns`, `RequestShutdown`,
  `ResolverShutdown`). Compressed names read back after all later writes; the hashed request table keeps
  its counters, buckets and ids, and no run loses or duplicates a request; which tables can lose one when
  they are shut down, and what that means for a lookup, is proved exactly.
- **Event loop** (`Queues`, `EventLoop`, `EventRuns`, `CommonTimeouts`). In every run flags are
  memberships, counters are sizes, and every common-timeout list is woken in time.
- **Rate limits** (`TokenBucket`, `RateLimit`). The overflow-avoiding refill is the plain one, bandwidth
  is bounded over any window, and when no wakeup is lost is characterised exactly.
- **Wire format** (`TagCodec`, `Tagging`). Nibble integers, 7-bit tags and records read back.
- **Random numbers** (`Arc4`, `Uniform`). The cipher state stays a permutation and the bounded draw is
  unbiased. `Counting` holds the set lemmas that `Arc4` and `RequestTable` share, and `Basics` what all
  modules share.

Where a promise turned out not to hold for all inputs, the model keeps what the code does, gives an input
that breaks the promise, and proves exactly when it holds:

- Moving part of a buffer reports bytes as moved that are lost when there is no memory for the part of a
  chunk that has to be copied: `RemoveBuffer` with `Lost`, `MoveLosesByte`.
- A prepend that is refused for want of memory may have stored the end of the data: `Prepend`,
  `PrependKeepsByte`.
- Shutting the resolver down does not reach every request. The walk over the buckets lets waiting requests
  into flight under random ids, also into buckets that it has passed; such a request is never told, and
  its timer uses the freed resolver: `ShutdownMisses`, `ShutdownForgets`, `WaitingIsForgotten`,
  `QuietButMissed`. Only requests that wait can be missed: `OnlyWaitingMissed`.
- Shutting the resolver down while a callback is queued or the timer is pending, or missing a sub-request,
  or canceling afterwards, makes the lookup use a resolver that is gone: `SafeShutdown`, `MisusedIff`,
  `TableShutdown`, `QueuedReplyFindsFreedResolver`.
- A canceled lookup may be reported as failed instead of canceled, if both sub-requests were outstanding
  and the skew timer, started again by the first canceled one, fires before the second callback:
  `CancelIsReported`, `TimerFiresBetween`, `CancelSeenAsFailure`.
- A name with an empty label before its end does not read back: `Survives`, `EncodeEnds`,
  `EmptyLabelCuts`.
- The zero that closes a name is written without a test for room, and may be the one byte too many:
  `OverrunsExactly`, `OverrunHappens`; `RoomForWorst` says when a whole message is safe.
- A waiting request has transaction id 0xffff if there was no room when it was made, but keeps a real id
  if there was room and no server: `Submit`, `WaitsWithId`. It gets a new id when it is promoted, so only
  requests in flight are claimed to have distinct ids.
- After the kernel has lost or kept a descriptor on its own, the next dispatch repairs it only if there is
  a pending change for it: `DispatchAfterDisturbance`.
- The refill is the plain one only up to the maximum (`RefillAboveMax`, `AboveMaxGrows`), and above it the
  limit may wrap (`WrapsIff`, `WrapHappens`). A refund can lift the limit above the maximum, and then a
  wakeup can be lost: `NoLostWakeup`, `RefundBreaks`.
- A tick shorter than a millisecond, or of a multiple of 2^32 milliseconds, is accepted and has no length,
  so that no tick can be computed: `CfgNewRight`, `EmptyTick`, `HugeTick`, `GetTickRight`.
- After a change of the tick length no tick may be counted for a long time, and a suspended direction stays
  suspended: `ResumedIff`, `LongerTicksStall`.
- `peek_length` and `consume` disagree while the payload has not all come, and for payloads of 2^31 bytes
  and more: `PeekIsConsumed`, `PeekedTooEarly`, `PeekDisagrees`.
- The comment on the integer format says that nibbles are in big-endian order; the code writes the
  lowest nibble first, and so does the model.

What the allocator answers (a fresh address or nothing), clocks and random numbers are parameters, and
each section that holds a lock is one step.

## Model

| member | source | states |
|---|---|---|
| `Chunks.Capacity` | core/src/main/jni/libevent/buffer.c:155-192 | the block of a new chunk is the least doubling of the smallest one that holds header and data (or exactly the size asked for, when doubling would pass half the limit); refused exactly above the limit |
| `Chunks.CutFront` | core/src/main/jni/libevent/buffer.c:1095-1159 | dropping whole chunks and part of the next one keeps the shape invariant, both cached pointers and the cached length, and drops exactly a prefix of the content |
| `Chunks.JoinTail` | core/src/main/jni/libevent/buffer.c:883-900 | linking a second list behind a first one, after its trailing empty chunks are freed, keeps the invariant and concatenates the contents |
| `Chunks.GatherSome` | core/src/main/jni/libevent/buffer.c:1405-1454 | replacing the first chunks by one chunk with their data keeps the content and re-establishes the invariant in every case of which chunks are gone |
| `EvBuffers.TrimTail` | core/src/main/jni/libevent/buffer.c:289-303 | frees exactly the empty chunks behind all data; the content is unchanged and the slot returned is the one behind the last chunk kept |
| `EvBuffers.AdvanceLastWithData` | core/src/main/jni/libevent/buffer.c:702-716 | walks last_with_datap from an old value to the slot of the real last chunk with data |
| `EvBuffers.CopyChunks` | core/src/main/jni/libevent/buffer.c:1405-1427 | copies whole chunks while they fit and reports exactly whether the last chunk with data, and the chunk whose next pointer leads to it, were consumed |
| `EvBuffers.EvBuffer.constructor` | core/src/main/jni/libevent/buffer.c:360-375 | a new buffer is empty and satisfies the invariant |
| `EvBuffers.EvBuffer.ChainInsert` | core/src/main/jni/libevent/buffer.c:308-326 | appends a chunk after freeing trailing empty ones: content becomes content plus the chunk's data, invariant kept |
| `EvBuffers.EvBuffer.Add` | core/src/main/jni/libevent/buffer.c:1722-1810 | content becomes content + data in all of its cases (room in the last chunk, realigned chunk, split over a new chunk); refused exactly if the length would overflow, or a new chunk is needed and there is no memory for it or it would be too large; when refused, the content is unchanged |
| `EvBuffers.EvBuffer.Prepend` | core/src/main/jni/libevent/buffer.c:1812-1885 | content becomes data + content whether the data fits in front of the first chunk, partly, or not at all; refused exactly on overflow or for want of a chunk, and in the second case exactly the end of the data that fitted in front of the first chunk stays in the buffer |
| `EvBuffers.EvBuffer.Drain` | core/src/main/jni/libevent/buffer.c:1095-1159 | content loses its first len bytes, or all of them; invariant kept |
| `EvBuffers.EvBuffer.CopyOut` | core/src/main/jni/libevent/buffer.c:1177-1182 | returns the first min(datlen, length) bytes and changes nothing |
| `EvBuffers.EvBuffer.Remove` | core/src/main/jni/libevent/buffer.c:1161-1175 | what is returned followed by what is left is what was there, and min(datlen, length) bytes are returned |
| `EvBuffers.EvBuffer.AddBuffer` | core/src/main/jni/libevent/buffer.c:960-1004 | moves everything in the source to the end of the destination and leaves the source empty, both invariants kept; a no-op on a buffer and itself |
| `EvBuffers.EvBuffer.AppendChain` | core/src/main/jni/libevent/buffer.c:883-900 | relinks a whole chain list behind this buffer |
| `EvBuffers.EvBuffer.RemoveBuffer` | core/src/main/jni/libevent/buffer.c:1254-1342 | the source loses exactly min(datlen, length) bytes and the destination gains them, whether chunks are relinked or copied; for want of memory exactly the part of a chunk that has to be copied does not arrive (Lost); both invariants hold; the result is that count as an int |
| `EvBuffers.EvBuffer.Pullup` | core/src/main/jni/libevent/buffer.c:1344-1454 | content and length never change; it succeeds exactly for sizes from 1 to the length (all, if negative) for which the first chunk has the bytes or the room, or a new one can be had, and then the first chunk holds that many bytes; last and last_with_datap are restored in every case |
| `Expansion.CountRoom` | core/src/main/jni/libevent/buffer.c:2061-2090 | counts the room in the chunks behind the data, realigning empty ones, without changing the content |
| `Expansion.ExpandFast` | core/src/main/jni/libevent/buffer.c:2039-2147 | content unchanged, and at least datlen bytes of room in at most n chunks starting at the first one with space; it fails only for want of memory |
| `Expansion.ExpandSinglechain` | core/src/main/jni/libevent/buffer.c:1925-2035 | content unchanged, and room for datlen bytes in one chunk, the last with data or the one behind it, whether it is used, realigned, put in a larger block or followed by a new one; it fails only for want of memory, and then changes nothing |
| `Expansion.Resize` | core/src/main/jni/libevent/buffer.c:2000-2022 | a larger block takes the place of the last chunk with data: content kept, last and last_with_datap right, also when it was the last of all |
| `Expansion.ReadSetupVecs` | core/src/main/jni/libevent/buffer.c:2213-2247 | the vectors offered are the free space of consecutive chunks from the first one with space on: exactly howmuch bytes, the last piece cut, or whole pieces of which the last is needed to reach howmuch |
| `Expansion.Distribute` | core/src/main/jni/libevent/buffer.c:2366-2391 | distributing the bytes of a vectored read over those chunks refines append and keeps the invariant |
| `Expansion.Read` | core/src/main/jni/libevent/buffer.c:2269-2400 | asks for no more than is wanted, readable and allowed, expands, offers and distributes: content becomes content + input; an error, the end of the input or want of memory leaves it as it was |
| `Searching.PtrUnique` | core/src/main/jni/libevent/buffer.c:2609-2658 | there is exactly one valid pointer for each position |
| `Searching.PtrSet` | core/src/main/jni/libevent/buffer.c:2609-2658 | a pointer set to or moved by a position is the valid pointer of that position; fails exactly beyond the end |
| `Searching.PtrAddAgrees` | core/src/main/jni/libevent/buffer.c:2609-2658 | adding to a valid pointer gives the same pointer as setting the summed position |
| `Searching.PtrSubtract` | core/src/main/jni/libevent/buffer.c:2590-2607 | moving back gives the valid pointer of the earlier position; refused exactly before the start |
| `Searching.MemCmp` | core/src/main/jni/libevent/buffer.c:2660-2695 | the sign is that of comparing the flat content at the position, even across chunks, with the bytes; zero exactly if it starts with them |
| `Searching.Search` | core/src/main/jni/libevent/buffer.c:2697-2701 | the least position at or after the start where the flat content matches, or not-found if there is none |
| `Searching.CopyOutFrom` | core/src/main/jni/libevent/buffer.c:1183-1249 | the bytes of the flat content from a position on, as many as are asked for and there are; refused exactly if the sum passes the largest size |
| `Searching.BeforeIsStrict` | core/src/main/jni/libevent/buffer.c:2660-2695 | the order of strings that the sign is about is strict |
| `Searching.SearchRange` | core/src/main/jni/libevent/buffer.c:2703-2769 | the same with an end: the least position at or after the start where the flat content matches, if that match ends by the end, and otherwise no match does |
| `Lines.FindEolChar` | core/src/main/jni/libevent/buffer.c:1488-1513 | the 128-byte chunked scan is a plain left-to-right scan for CR or LF |
| `Lines.FindFirst` | core/src/main/jni/libevent/buffer.c:1466-1535 | the first wanted byte of the flat content at or after a pointer |
| `Lines.StrSpn` | core/src/main/jni/libevent/buffer.c:1537-1574 | the length of the run of CR and LF bytes at a pointer |
| `Lines.FirstEolTerminates` | core/src/main/jni/libevent/buffer.c:1589-1670 | the reference scan finds a terminator of the style |
| `Lines.FirstEolIsFirst` | core/src/main/jni/libevent/buffer.c:1589-1670 | the reference scan finds one whenever there is one, and none starts earlier |
| `Lines.SearchEol` | core/src/main/jni/libevent/buffer.c:1589-1670 | in each style, the pointer and length found are those of the reference scan on the flat content |
| `Lines.ReadLn` | core/src/main/jni/libevent/buffer.c:1672-1716 | either nothing changes or the content is split into line, first terminator of the style, and rest |
| `BufferRuns.Step` | core/src/main/jni/libevent/buffer.c:869-1004 | one operation on a pair of buffers refines the same operation on two flat strings |
| `BufferRuns.Run` | core/src/main/jni/libevent/evbuffer-internal.h:86-102 | from two empty buffers every run of add, prepend, read, drain, remove, read line, pullup and expand on either of them, and of moving all or some from either to the other, keeps both invariants, and contents and outputs are those of the run on flat strings, as long as these never outgrow a size_t |
| `BufferRuns.MoveLosesByte` | core/src/main/jni/libevent/buffer.c:1316-1324 | without memory, a move of one byte of two reports it moved, and it has arrived nowhere |
| `BufferRuns.PrependKeepsByte` | core/src/main/jni/libevent/buffer.c:1849-1865 | without memory, a prepend of two bytes is refused, and one of them is in the buffer |
| `Links.ReadSlot` | core/src/main/jni/libevent/buffer.c:295-296 | reading through the slot to a place gives the chunk there: what the model finds by position the code finds by following pointers |
| `Links.InsertRight` | core/src/main/jni/libevent/buffer.c:289-326 | freeing the trailing chunks and writing the slot they hung on appends one chunk |
| `Links.AppendRight` | core/src/main/jni/libevent/buffer.c:883-900 | writing one slot links the other list behind the data |
| `Links.MoveRight` | core/src/main/jni/libevent/buffer.c:1279-1312 | the three writes of a move leave two lists: the kept chunks with those moved, and the rest |
| `Links.EditRight` | core/src/main/jni/libevent/buffer.c:289-2022 | every edit that the operations make (cut, insert, append, move, push, drop, gather, replace) leaves pointers that pass exactly the chunks it should, in order |
| `Links.RunRight` | core/src/main/jni/libevent/buffer.c:289-2022 | in every run of such edits on two buffers, following the pointers passes exactly the chunks of the two lists, and these are all the chunks in memory: nothing dangles, nothing leaks, nothing is shared |
| `Links.MoveIsEdit` | core/src/main/jni/libevent/buffer.c:1279-1324 | moving chunks out of a buffer is such an edit of the two lists |
| `Links.AppendIsEdit` | core/src/main/jni/libevent/buffer.c:883-900 | so is linking a whole list, through the slot that the code writes |
| `Links.InsertIsEdit` | core/src/main/jni/libevent/buffer.c:308-326 | so is adding a chunk |
| `Links.PushIsEdit` | core/src/main/jni/libevent/buffer.c:1879-1887 | so is linking a chunk in front |
| `Links.DropIsEdit` | core/src/main/jni/libevent/buffer.c:1123-1150 | so is dropping chunks |
| `Links.GatherIsEdit` | core/src/main/jni/libevent/buffer.c:1388-1440 | so is gathering chunks in one |
| `Links.ReplaceIsEdit` | core/src/main/jni/libevent/buffer.c:2010-2021 | so is putting a chunk in another block |
| `EpollTable.TableIsRule` | core/src/main/jni/libevent/epolltable-internal.h:40-1166 | every one of the 512 rows is what the rule says for its index: no-op, add, modify or delete, with the wanted events |
| `EvMap.ApplyOneChange` | core/src/main/jni/libevent/epoll.c:268-352 | whatever the kernel knew of the descriptor, a change that is not a no-op ends in the wanted set (retrying a lost or kept descriptor), and no other descriptor is touched |
| `EvMap.ApplyFromAnyKernel` | core/src/main/jni/libevent/epoll.c:268-352 | the wanted set is reached if and only if the change is not a no-op or the kernel had the old set |
| `EvMap.ApplyList` | core/src/main/jni/libevent/epoll.c:354-371 | whatever the kernel has, exactly the descriptors with a pending change that is not a no-op get the set it wants, and all others keep what they had |
| `EvMap.CountWithout` | core/src/main/jni/libevent/evmap.c:346-409 | removing one event takes one off exactly the counts it is in |
| `EvMap.PlusRight` | core/src/main/jni/libevent/evmap.c:288-333 | the events newly wanted are exactly those whose count leaves zero, each kind by itself, and overflow of a 16-bit count is detected exactly |
| `EvMap.LessRight` | core/src/main/jni/libevent/evmap.c:361-401 | the events no longer wanted are exactly those whose count becomes zero, each kind by itself |
| `EvMap.AddToWants` | core/src/main/jni/libevent/evmap.c:855-887 | coalescing an add into a pending change adds to what it leads to, whatever is pending |
| `EvMap.DelFromWants` | core/src/main/jni/libevent/evmap.c:889-939 | coalescing a delete takes away from what it leads to; a delete of something not yet in the kernel cancels the add |
| `EvMap.EventBase.GetOrConstruct` | core/src/main/jni/libevent/evmap.c:823-853 | the entry for a descriptor and its back-index point at each other |
| `EvMap.EventBase.ChangelistAdd` | core/src/main/jni/libevent/evmap.c:855-887 | an add is pending for each added event, also for one that the kernel had already; nothing else that is pending changes, and the change leads to the old events plus the new ones |
| `EvMap.EventBase.ChangelistDel` | core/src/main/jni/libevent/evmap.c:889-939 | for each deleted event a delete is pending if the kernel had it at the last dispatch, and nothing is pending if not; nothing else that is pending changes, and the change leads to the old events minus the deleted ones |
| `EvMap.EventBase.BackendAdd` | core/src/main/jni/libevent/epoll.c:373-395 | deferred or immediate, the descriptor will have, or has, the wider set; deferred, exactly the adds for it become pending |
| `EvMap.EventBase.BackendDel` | core/src/main/jni/libevent/epoll.c:397-413 | deferred or immediate, the descriptor will have, or has, the narrower set; deferred, exactly the deletes for it become pending, or its adds are canceled |
| `EvMap.EventBase.AddEvent` | core/src/main/jni/libevent/evmap.c:265-339 | the event joins its descriptor's list; the result says exactly whether the wanted set changed, or whether a count would overflow or the backend failed when it had to be told, and then nothing is registered; an add is pending exactly for the events whose count left zero |
| `EvMap.EventBase.DelEvent` | core/src/main/jni/libevent/evmap.c:341-409 | the event leaves its descriptor's list; the result says exactly whether the wanted set changed; a delete is pending, or an add canceled, exactly for the events whose count became zero |
| `EvMap.EventBase.ApplyChanges` | core/src/main/jni/libevent/epoll.c:354-371 | after applying the list the kernel has, for every descriptor, the set read off its counts |
| `EvMap.EventBase.RemoveAllChanges` | core/src/main/jni/libevent/evmap.c:767-786 | clears the list and every back-index |
| `EvMap.EventBase.FlushChanges` | core/src/main/jni/libevent/epoll.c:354-371 | after a flush the kernel's interest is what the registered events ask for, on every descriptor |
| `EvMapRuns.ImmediateInStep` | core/src/main/jni/libevent/epoll.c:373-413 | without a change list the kernel is in step after every operation |
| `EvMapRuns.RunBoth` | core/src/main/jni/libevent/evmap.c:265-409 | for every script of adds, deletes and dispatches, the deferred and the immediate backend end with the same kernel interest, the one of the registered events |
| `EvMapRuns.RunDeferred` | core/src/main/jni/libevent/evmap.c:855-939 | after every script exactly this is pending on each descriptor, event by event: the last change of the wanted set since the last dispatch, an add whatever the kernel had, a delete only of what it had at the dispatch |
| `EvMapRuns.AddMarks` | core/src/main/jni/libevent/evmap.c:868-875 | if the last operation on a descriptor since the last dispatch that told the backend was an add, an add is pending: it never coalesces into a no-op |
| `EvMapRuns.DelUnmarks` | core/src/main/jni/libevent/evmap.c:900-928 | deleting what the kernel did not have at the last dispatch cancels the pending add, so that no call is made for it |
| `EvMapRuns.DispatchAfterDisturbance` | core/src/main/jni/libevent/epoll.c:295-345 | after the kernel has lost or kept any descriptors on its own, exactly those with a change that is not a no-op, and those that were right already, are right after the next dispatch; all others stay as the kernel had them |
| `EvMapRuns.DispatchAfterScript` | core/src/main/jni/libevent/evmap.c:855-939 | the same in terms of the script alone: right are exactly the descriptors with some pending add or delete by the rules above, and those that were right anyhow; all others stay as they were |
| `EvMapRuns.AddSurvives` | core/src/main/jni/libevent/evmap.c:868-875 | a descriptor whose last operation that told the backend was an add has the interest of its registered events after the next dispatch, whatever the kernel had: a descriptor closed and opened again in between is repaired |
| `GetAddrInfoRequest.Request.constructor` | core/src/main/jni/libevent/evdns.c:4628-4750 | a request with the sub-requests that could be launched; if there is none, the user is told at once and the request is gone |
| `GetAddrInfoRequest.Request.GotResolve` | core/src/main/jni/libevent/evdns.c:4384-4567 | carries out exactly the callback step of the state machine, using the resolver for every reply but a shutdown, which makes it forget the resolver |
| `GetAddrInfoRequest.Request.GotError` | core/src/main/jni/libevent/evdns.c:4456-4484 | an error waits for the other sub-request and starts the timer, unless the resolver shuts down, or ends the request with cancel, the pending addresses or the merged error |
| `GetAddrInfoRequest.Request.GotAddresses` | core/src/main/jni/libevent/evdns.c:4494-4567 | addresses wait for the other sub-request with the timer started, or are returned with the pending ones, IPv4 first |
| `GetAddrInfoRequest.Request.TimeoutCb` | core/src/main/jni/libevent/evdns.c:4317-4368 | carries out exactly the timer step, which uses the resolver; it fires only with exactly one sub-request left |
| `GetAddrInfoRequest.Request.Cancel` | core/src/main/jni/libevent/evdns.c:4752-4767 | carries out exactly the cancel step: uses the resolver, marks the request, stops the timer and cancels what can still be canceled |
| `GetAddrInfoRequest.Request.Shutdown` | core/src/main/jni/libevent/evdns.c:4028-4087 | every sub-request that is still outstanding and that the walk over the requests reaches gets its callback with a shutdown error, and the resolver is gone |
| `GetAddrInfoRequest.RunScript` | core/src/main/jni/libevent/evdns.c:4290-4567 | for every interleaving the request goes through the states of its state machine; a dead resolver is used exactly if some step does; otherwise the user has been called once, with the right outcome, exactly when no sub-request is left, and a sub-request is missed exactly if a shutdown missed one |
| `GetAddrInfo.NextOk` | core/src/main/jni/libevent/evdns.c:4290-4567 | every step of the state machine keeps its invariant, of which WaitBounded is a part: with one reply in that is no shutdown, the other outstanding and nobody told or canceled, the timer is pending |
| `GetAddrInfo.NextMoves` | core/src/main/jni/libevent/evdns.c:4290-4567 | every step moves the sub-requests as it should: a reply or a callback is of one of them alone, a callback delivers the reply that was queued, and a cancel, the timer or a shutdown fails exactly what is outstanding; who called back first and last, and that the user canceled, is kept in mind |
| `GetAddrInfoRuns.ExactlyOnce` | core/src/main/jni/libevent/evdns.c:4290-4567 | in every run that uses no dead resolver: at most one call and one free; freed exactly when no sub-request is left, with exactly one call and the right outcome, and never touched again; before that something is still to come, unless a shutdown missed a sub-request; the timer is pending only with exactly one sub-request left, and always then, if the other was answered with anything but a shutdown and the user was neither told nor has canceled |
| `GetAddrInfoRuns.CanceledIff` | core/src/main/jni/libevent/evdns.c:4752-4767 | the request counts as canceled exactly if the user canceled while it existed |
| `GetAddrInfoRuns.MisusedIff` | core/src/main/jni/libevent/evdns.c:4411-4427 | a run uses a freed or null resolver if and only if one of its steps does after the shutdown |
| `GetAddrInfoRuns.AliveWithoutShutdown` | core/src/main/jni/libevent/evdns.c:4411-4427 | without a shutdown that never happens |
| `GetAddrInfoRuns.SafeShutdown` | core/src/main/jni/libevent/evdns.c:4028-4087 | whatever follows a shutdown, short of a cancel, uses no dead resolver if and only if no callback was queued, no timer pending and no sub-request missed; with cancels, if and only if the request was gone |
| `GetAddrInfoRuns.QueuedReplyFindsFreedResolver` | core/src/main/jni/libevent/evdns.c:4411-4424 | the run in which a reply is queued, the resolver shuts down, and the callback then uses it |
| `GetAddrInfoRuns.ShutdownEnds` | core/src/main/jni/libevent/evdns.c:4028-4052 | after a safe shutdown its callbacks, in either order, end the request with one call and one free |
| `GetAddrInfoRuns.MissedIff` | core/src/main/jni/libevent/evdns.c:4039-4050 | a run that uses no dead resolver ends with a missed sub-request if and only if a shutdown missed one |
| `GetAddrInfoRuns.MissedIsNeverTold` | core/src/main/jni/libevent/evdns.c:4039-4087 | once a sub-request has been missed, the user hears nothing more and the request is never freed, unless the freed resolver is used |
| `ResolverShutdown.TableShutdown` | core/src/main/jni/libevent/evdns.c:4029-4087 | after a shutdown of the request table the resolver is never used, short of a cancel, if and only if nothing was queued or pending and neither sub-request was left in the table; none is left if none waited or if the table cannot miss a request |
| `ResolverShutdown.TableShutdownEnds` | core/src/main/jni/libevent/evdns.c:4029-4087 | a quiet lookup in a table that cannot miss a request ends with its shutdown callbacks |
| `ResolverShutdown.ForgottenIsMissed` | core/src/main/jni/libevent/evdns.c:2162-2169 | a quiet lookup with a sub-request that the table may forget may be left without an answer and with a use of the freed resolver to come |
| `ResolverShutdown.QuietButMissed` | core/src/main/jni/libevent/evdns.c:4039-4050 | such a lookup: its sub-request waits behind as many in flight as are allowed, all in the second bucket |
| `GetAddrInfoRuns.AnswersStay` | core/src/main/jni/libevent/evdns.c:4317-4567 | what the user was told is never taken back |
| `GetAddrInfoRuns.CancelIsReported` | core/src/main/jni/libevent/evdns.c:4752-4767 | a cancel before the answer ends in the cancel error if and only if the timer does not fire before the end, and it cannot fire if exactly one sub-request was left at the cancel |
| `GetAddrInfoRuns.CancelStops` | core/src/main/jni/libevent/evdns.c:4752-4767 | after a cancel no sub-request is outstanding again, in any run: only callbacks that are queued are still to come |
| `GetAddrInfoRuns.TimerStops` | core/src/main/jni/libevent/evdns.c:4317-4368 | nor after the skew timer has fired |
| `GetAddrInfoRuns.TimerFiresBetween` | core/src/main/jni/libevent/evdns.c:4458-4466 | with both sub-requests left, a timer that fires does so between their callbacks |
| `GetAddrInfoRuns.CancelSeenAsFailure` | core/src/main/jni/libevent/evdns.c:4458-4466 | a run in which a canceled request is reported as failed, because the first canceled sub-request starts the timer again |
| `DnsNames.ReadMore` | core/src/main/jni/libevent/evdns.c:959-1013 | a name that can be read can be read with more jumps allowed and after more bytes have been appended, with the same result and end |
| `DnsNames.StrictIsRead` | core/src/main/jni/libevent/evdns.c:959-1013 | what the strict format of section 4.1.4 of RFC 1035 says (below 64 a label, from 192 a pointer of 14 bits to an earlier place, nothing else) the parser reads as well, with the same labels |
| `DnsNames.StrictMore` | core/src/main/jni/libevent/evdns.c:959-1013 | a name in the strict format stays one when more bytes follow |
| `DnsNames.NameParse` | core/src/main/jni/libevent/evdns.c:959-1013 | on every packet it terminates, and succeeds if and only if the format has a name there (with at most as many jumps as bytes) that fits the output; result and end are those of the format |
| `DnsNames.EncodeReads` | core/src/main/jni/libevent/evdns.c:1599-1663 | what is written for a name, and every suffix it adds to the table, reads back as the name up to its first empty label, in the strict format: labels of at most 63 bytes, and pointers with both high bits set that lead strictly backwards |
| `DnsNames.EncodeEnds` | core/src/main/jni/libevent/evdns.c:1599-1663 | the parser ends where the writer ended if and only if no empty label other than the last one is written out |
| `DnsNames.EncodeRight` | core/src/main/jni/libevent/evdns.c:1559-1663 | one write keeps every entry of the label table readable in the strict format and makes the new name readable in it, and so readable by the parser |
| `DnsNames.EncodeAccepts` | core/src/main/jni/libevent/evdns.c:1590-1663 | refused only for a label over 63 bytes or for lack of room; the message only grows, by at most the name and 2 bytes |
| `DnsNames.EncodeTable` | core/src/main/jni/libevent/evdns.c:1571-1588 | the table never has more than 128 entries, and none goes away |
| `DnsNames.EncodeRemembers` | core/src/main/jni/libevent/evdns.c:1615-1653 | while the table has not filled up, a name and all of its suffixes are known after it has been written |
| `DnsNames.AgainIsPointer` | core/src/main/jni/libevent/evdns.c:1618-1628 | and so, written once more, it takes exactly one pointer of two bytes |
| `DnsNames.OverrunsExactly` | core/src/main/jni/libevent/evdns.c:1655-1659 | a byte is written past the end of the buffer if and only if the name is lawful, shares no suffix, ends in a label, and leaves no room for the closing zero |
| `DnsNames.OverrunHappens` | core/src/main/jni/libevent/evdns.c:1655-1659 | the name "a" in a buffer of two bytes takes three |
| `DnsNames.Survives` | core/src/main/jni/libevent/evdns.c:1590-1663 | what is read back is the name up to a trailing dot if and only if it has no empty label before its end (or is a single dot) |
| `DnsNames.EmptyLabelCuts` | core/src/main/jni/libevent/evdns.c:1636-1649 | "a..b" reads back as "a" |
| `DnsMessage.LabelTable.GetPos` | core/src/main/jni/libevent/evdns.c:1559-1568 | the place of the first matching suffix, or -1 |
| `DnsMessage.LabelTable.Add` | core/src/main/jni/libevent/evdns.c:1571-1588 | remembers a suffix unless 128 are known |
| `DnsMessage.DnsNameToLabels` | core/src/main/jni/libevent/evdns.c:1599-1663 | the loop over a byte array writes exactly the specified bytes, whose pointers are those of the strict format, updates the table, and returns the end or the error code, also in a buffer of exactly bufLen bytes unless the name overruns it |
| `DnsMessage.BuildMessage` | core/src/main/jni/libevent/evdns.c:1891-1960 | any number of names written through one table, with other fields between them, can all be read in the finished message, in the strict format and by the parser; it fails only for unlawful names or lack of room; the buffer may be exactly bufLen bytes unless a name overruns it |
| `DnsMessage.RoomForWorst` | core/src/main/jni/libevent/evdns.c:1891-1960 | no name overruns if there is room for the most that the pieces can take |
| `DnsMessage.RoundTrip` | core/src/main/jni/libevent/evdns.c:959-1013 | each of those names, parsed from where it was written after all later writes, is itself up to a trailing dot exactly if it has no inner empty label, and parsing ends where writing ended |
| `RequestTable.LookupRight` | core/src/main/jni/libevent/evdns.c:468-483 | looking in one bucket finds exactly the requests in flight |
| `RequestTable.IdsDistinct` | core/src/main/jni/libevent/evdns.c:1317-1329 | no two requests in flight share a transaction id |
| `RequestTable.FreeId` | core/src/main/jni/libevent/evdns.c:1317-1329 | while fewer than 65535 requests are in flight there is a free id to pick |
| `RequestTable.Base.FindFromTransId` | core/src/main/jni/libevent/evdns.c:468-483 | the request in flight with the id, if and only if there is one |
| `RequestTable.Base.TransactionIdPick` | core/src/main/jni/libevent/evdns.c:1317-1329 | an id that is not 0xffff and not in flight |
| `RequestTable.Base.NameserverPick` | core/src/main/jni/libevent/evdns.c:1334-1365 | round-robin: the first server that is up from the current one on, or the next server if none is |
| `RequestTable.PromotedGoes` | core/src/main/jni/libevent/evdns.c:742-768 | a promotion puts the oldest waiting request in flight, below the limit, under a free id and to the server that is picked next, which alone is charged |
| `RequestTable.PromotesWithin` | core/src/main/jni/libevent/evdns.c:742-768 | any number of promotions raises the number in flight by as many, and never above the limit |
| `RequestTable.Base.Submit` | core/src/main/jni/libevent/evdns.c:2746-2841 | in flight with a fresh id if there is room and a server, to the first server that is up going round from the current one (the next one if none is), which alone is charged; the next round starts behind it; else at the end of the waiting queue, without an id exactly if there was no room |
| `RequestTable.Base.SendProbe` | core/src/main/jni/libevent/evdns.c:2314-2340 | a probe goes in flight to its server, which alone is charged, whatever the limit; while there is room the round of servers moves on by one pick as well |
| `RequestTable.Base.PumpWaitingQueue` | core/src/main/jni/libevent/evdns.c:742-768 | promotes the oldest waiting requests, each with a free id and the next server, until none waits, the limit is reached or there is no server, and never above the limit; nobody in flight is lost |
| `RequestTable.Base.FinishInflight` | core/src/main/jni/libevent/evdns.c:648-707 | removes exactly that request, keeps all counters, and pumps the queue, never above the limit |
| `RequestTable.Base.FinishAt` | core/src/main/jni/libevent/evdns.c:648-707 | the same for a place in a bucket, with the exact promotions that follow |
| `RequestTable.Base.FinishWaiting` | core/src/main/jni/libevent/evdns.c:648-707 | removes exactly that waiting request and pumps the queue |
| `RequestTable.Base.SwapNs` | core/src/main/jni/libevent/evdns.c:544-553 | moves a request to another server: only those two servers' counts change, and no other id is affected |
| `RequestTable.Rehash` | core/src/main/jni/libevent/evdns.c:3398-3408 | every request moves to bucket id mod n, and the lookup of every id is unchanged |
| `RequestTable.Base.SetMaxRequestsInflight` | core/src/main/jni/libevent/evdns.c:3385-3414 | a limit of at least 1, a fifth as many buckets, and unchanged lookups |
| `RequestShutdown.ShutDown` | core/src/main/jni/libevent/evdns.c:4039-4050 | the two loops of the shutdown are a walk of the state machine, everybody has been told or is still in the table, and the table is empty if it cannot miss a request |
| `RequestShutdown.ToldOrLeft` | core/src/main/jni/libevent/evdns.c:4039-4050 | at every point of every walk, for every owner, the requests told and those in the table are those there were |
| `RequestShutdown.SafeWalks` | core/src/main/jni/libevent/evdns.c:4039-4050 | a walk that starts where no request can be missed never has one in a bucket that it has passed, whatever the ids |
| `RequestShutdown.MissedForGood` | core/src/main/jni/libevent/evdns.c:4039-4050 | a request in a bucket that the walk has passed stays in flight to the end |
| `RequestShutdown.FreeOutside` | core/src/main/jni/libevent/evdns.c:1317-1329 | while there is room, an id outside the first bucket is free |
| `RequestShutdown.ShutdownMisses` | core/src/main/jni/libevent/evdns.c:4039-4050 | some ids leave a request in flight after the shutdown if and only if there is a server and a request waits and, with something in flight, there are at least two buckets and the first is empty or more wait than there is room for besides what is outside it; with nothing in flight, if and only if two wait |
| `RequestShutdown.ShutdownForgets` | core/src/main/jni/libevent/evdns.c:4039-4050 | on the same condition exactly, some ids leave an owner without being told of all his requests |
| `RequestShutdown.OnlyWaitingMissed` | core/src/main/jni/libevent/evdns.c:4039-4050 | whatever the ids, only requests that waited at the shutdown can be missed |
| `RequestShutdown.ToldUnlessMissed` | core/src/main/jni/libevent/evdns.c:4039-4050 | an owner with one request is told exactly if it is not left, and always if it was in flight or the table cannot miss one |
| `RequestShutdown.WaitingIsForgotten` | core/src/main/jni/libevent/evdns.c:4039-4050 | two buckets, requests in flight under odd ids up to the limit, and one that waits: it may never be told |
| `RequestRuns.Do` | core/src/main/jni/libevent/evdns.c:648-770 | each operation keeps the invariant and has its effect: which server is picked and charged, who waits and in what order, which promotions follow, and that all else stays; one that cannot be done changes nothing |
| `RequestRuns.Conserved` | core/src/main/jni/libevent/evdns.c:648-770 | at every point of every run, the requests in the table are those that have begun and not ended: none is lost or duplicated |
| `RequestRuns.Run` | core/src/main/jni/libevent/evdns.c:648-770 | every script of submit, probe, finish, drop, swap and resize makes a run: a trace of consistent states, each led to by its operation |
| `RequestRuns.WaitsWithId` | core/src/main/jni/libevent/evdns.c:2754-2758 | a waiting request with a real id, made while there was room but no server |
| `Queues.OneQueue` | core/src/main/jni/libevent/event.c:3172-3385 | an event that joins or leaves one queue leaves flags equal to membership for all queues |
| `EventLoop.Leave` | core/src/main/jni/libevent/event.c:3172-3235 | leaving a queue keeps flags, order and both counters right |
| `EventLoop.Join` | core/src/main/jni/libevent/event.c:3309-3385 | joining a queue keeps flags, order and both counters right |
| `EventLoop.FindPlace` | core/src/main/jni/libevent/event.c:3279-3307 | the backward search finds the place that keeps a common-timeout list sorted, behind all of the same deadline |
| `EventLoop.Loop.RemoveActive` | core/src/main/jni/libevent/event.c:3184-3199 | off its active queue, flag cleared, both counters down |
| `EventLoop.Loop.RemoveTimeout` | core/src/main/jni/libevent/event.c:3215-3235 | off the heap or its common-timeout list |
| `EventLoop.Loop.InsertActive` | core/src/main/jni/libevent/event.c:3325-3344 | at the end of its active queue, unless it is there already |
| `EventLoop.Loop.InsertLater` | core/src/main/jni/libevent/event.c:3346-3361 | at the end of the later queue, unless it is active or later already |
| `EventLoop.Loop.InsertTimeout` | core/src/main/jni/libevent/event.c:3363-3385 | on the heap, or at its place in a common-timeout list, behind all of the same deadline |
| `EventLoop.Loop.DelNolock` | core/src/main/jni/libevent/event.c:2760-2842 | off every queue, whose other members keep their order, unless the event is being finalized and that is to protect it |
| `EventLoop.Loop.ActiveNolock` | core/src/main/jni/libevent/event.c:2864-2913 | active exactly once, at the end of its queue, never active and later together; a finalizing event is left alone |
| `EventLoop.Loop.CallbackActivateNolock` | core/src/main/jni/libevent/event.c:2951-2979 | a callback moves from the later queue, or from none, to the end of its active queue; the result says whether it was queued already |
| `EventLoop.Loop.ActiveLaterNolock` | core/src/main/jni/libevent/event.c:2923-2938 | later, unless it is active already |
| `EventLoop.Loop.SetTimeout` | core/src/main/jni/libevent/event.c:2616-2688 | a new deadline replaces the old one and withdraws an activation by the old timeout |
| `EventLoop.Loop.Add` | core/src/main/jni/libevent/event.c:2546-2716 | an event for a descriptor or a signal is inserted unless it was inserted, active or later, and no other becomes inserted; schedules, and wakes a common-timeout list whose head changed; refused, with nothing changed, exactly for a finalizing event, or for such an event on none of the three queues whose registration fails |
| `EventLoop.Loop.Schedule` | core/src/main/jni/libevent/event.c:1406-1413 | the wake event of a list is on the heap for the deadline of its first event |
| `EventLoop.Loop.Finalize` | core/src/main/jni/libevent/event.c:2196-2208 | the event is off every queue but the active one and can no longer be added |
| `EventLoop.Loop.TimeoutProcess` | core/src/main/jni/libevent/event.c:3124-3150 | terminates; exactly the events on the heap that are due are deleted and activated, and every deadline left is after now |
| `EventLoop.Loop.CommonTimeoutCallback` | core/src/main/jni/libevent/event.c:1418-1439 | exactly the due events of the list are activated, and the wake event is set for the first of the others |
| `EventLoop.Loop.ProcessNext` | core/src/main/jni/libevent/event.c:1590-1618 | the first callback of a priority leaves its queue, deleted first unless it is persistent or finalizing; a persistent event stays inserted and keeps its timeout; the other callbacks stay as they are |
| `EventLoop.Loop.MakeLaterEventsActive` | core/src/main/jni/libevent/event.c:3387-3400 | every later callback becomes active, behind what was active before and in the same order, and the later queue is empty |
| `EventLoop.Loop.InitCommonTimeout` | core/src/main/jni/libevent/event.c:1443-1515 | the list of the duration if there is one, else a new empty list and its internal wake event, for at most 256 lists |
| `EventRuns.OkIsConsistent` | core/src/main/jni/libevent/event.c:3883-3940 | the invariant implies what the integrity check asserts of the active, later and common-timeout queues and their flags, that both counters are right, and that only events for descriptors or signals are inserted |
| `EventRuns.WokenInTime` | core/src/main/jni/libevent/event.c:1406-1439 | a common-timeout list with events has its wake event on the heap no later than its first event is due, or queued, or running |
| `EventRuns.NothingMissed` | core/src/main/jni/libevent/event.c:1406-1439 | after the timers have been processed, a list with a due event has its wake event queued or running |
| `EventRuns.Do` | core/src/main/jni/libevent/event.c:2540-2992 | each operation keeps the invariant and has its effect on every event, stated field by field; one that cannot be done changes nothing |
| `EventRuns.Run` | core/src/main/jni/libevent/event.c:2540-2992 | every script makes a run: a trace of states, each led to by its operation, in all of which flags are memberships, counters are sizes, lists are sorted and the wake events are in order |
| `CommonTimeouts.Unpack` | core/src/main/jni/libevent/event.c:1354-1361 | index and microseconds are recovered from a packed time, for 256 lists |
| `CommonTimeouts.PackedIsCommon` | core/src/main/jni/libevent/event.c:1363-1373 | a packed time is recognised exactly for the lists that exist |
| `CommonTimeouts.CommonIs` | core/src/main/jni/libevent/event.c:1354-1373 | any microseconds at all are taken for a common timeout exactly if, of their low 32 bits, the top four are 5 and the next eight are the index of a list that exists |
| `CommonTimeouts.PackedSame` | core/src/main/jni/libevent/event.c:1375-1382 | packed times agree in their high bits if and only if they are of one list |
| `CommonTimeouts.PlainIsNotCommon` | core/src/main/jni/libevent/event.c:1363-1373 | plain microseconds are never taken for a common timeout |
| `CommonTimeouts.OrderOfTimes` | core/src/main/jni/libevent/event.c:3287-3302 | comparing whole packed times compares the deadlines of events on one list |
| `CommonTimeouts.CommonDeadline` | core/src/main/jni/libevent/event.c:2666-2674 | adding a packed duration to the time leads to its list and a deadline that much later |
| `CommonTimeouts.AddFor` | core/src/main/jni/libevent/event.c:2616-2688 | an event added with a plain or a packed duration gets the right deadline in the right list, and is inserted or refused as by a plain add |
| `CommonTimeouts.CountStepRight` | core/src/main/jni/libevent/event.c:3154-3170 | the shift-and-mask counts exactly the non-internal events |
| `CommonTimeouts.FlagsRight` | core/src/main/jni/libevent/include/event2/event_struct.h:57-64 | every flag has the bit that it has in the source |
| `TokenBucket.RefillRight` | core/src/main/jni/libevent/bufferevent_ratelim.c:73-110 | in words of 32 or 64 bits the divided form is min(limit + ticks * rate, maximum), without overflow, whenever limit is at most maximum; above it, it is what the reference without division says |
| `TokenBucket.RefillAboveMax` | core/src/main/jni/libevent/bufferevent_ratelim.c:73-110 | above the maximum it is so if and only if the refill is at least the size of a word less the excess |
| `TokenBucket.AboveMaxGrows` | core/src/main/jni/libevent/bufferevent_ratelim.c:73-110 | a limit of 11 with a maximum of 10 grows to 12 |
| `TokenBucket.WrapsIff` | core/src/main/jni/libevent/bufferevent_ratelim.c:73-110 | exactly when a refill takes all bandwidth from a direction that has some |
| `TokenBucket.WrapHappens` | core/src/main/jni/libevent/bufferevent_ratelim.c:73-110 | a limit just above a maximum of 2^63 - 2 that wraps |
| `TokenBucket.UpdateBucket` | core/src/main/jni/libevent/bufferevent_ratelim.c:73-110 | the update is the plain refill of both directions, none if no tick passed or time went back |
| `TokenBucket.UpdateTwice` | core/src/main/jni/libevent/bufferevent_ratelim.c:73-110 | two updates are one over all the ticks, across the wrap of the tick counter |
| `TokenBucket.GetTickRight` | core/src/main/jni/libevent/bufferevent_ratelim.c:126-140 | a time has a tick exactly if the tick length is not zero; the ticks counted between two times are the whole ticks between them |
| `TokenBucket.CfgNewRight` | core/src/main/jni/libevent/bufferevent_ratelim.c:142-173 | exactly the sensible rates are accepted, and kept as they are, with the tick in whole milliseconds modulo 2^32; also ticks of no length: exactly those of a multiple of 2^32 whole milliseconds, which below 2^32 are those shorter than one |
| `TokenBucket.EmptyTick` | core/src/main/jni/libevent/bufferevent_ratelim.c:142-173 | a tick of 999 microseconds has no length |
| `TokenBucket.HugeTick` | core/src/main/jni/libevent/bufferevent_ratelim.c:142-173 | a tick of 2^29 seconds has no length either |
| `RateLimit.RateLimited.GetRlimMax` | core/src/main/jni/libevent/bufferevent_ratelim.c:197-258 | refills, then grants the whole limit, or nothing if it is negative; nothing else changes |
| `RateLimit.RateLimited.DecrementBuckets` | core/src/main/jni/libevent/bufferevent_ratelim.c:272-331 | charges or refunds the direction alone; it is suspended afterwards exactly if it is exhausted; the refill stays pending while either direction needs it |
| `RateLimit.RateLimited.DecrementLimit` | core/src/main/jni/libevent/bufferevent_ratelim.c:971-1025 | charges or refunds the direction alone and suspends or resumes it exactly when its limit crosses zero |
| `RateLimit.RateLimited.RefillCallback` | core/src/main/jni/libevent/bufferevent_ratelim.c:393-439 | refills, resumes exactly the directions that have bandwidth again, and stays pending exactly if one has not |
| `RateLimit.RateLimited.SetRateLimit` | core/src/main/jni/libevent/bufferevent_ratelim.c:559-636 | sets, changes (clipping downwards) or removes the limits; a direction is suspended afterwards exactly if its limit is exhausted |
| `RateLimit.RunScript` | core/src/main/jni/libevent/bufferevent_ratelim.c:272-331 | for every script the buffer event goes through the states of its state machine and moves the bytes it says; without refunds every state is in order |
| `RateLimit.NextOk` | core/src/main/jni/libevent/bufferevent_ratelim.c:272-331 | a step keeps the invariant if and only if it does not refill a running direction so that its limit wraps |
| `RateLimit.NoLostWakeup` | core/src/main/jni/libevent/bufferevent_ratelim.c:272-331 | in every state of a run an exhausted direction is suspended and a suspended direction has the refill pending, if and only if no refill of the run wraps |
| `RateLimit.NoLostWakeupWithoutRefunds` | core/src/main/jni/libevent/bufferevent_ratelim.c:272-331 | without refunds that always holds |
| `RateLimit.RefundBreaks` | core/src/main/jni/libevent/bufferevent_ratelim.c:971-995 | a refund above the maximum after which reading goes on with a negative limit |
| `RateLimit.RefillResumes` | core/src/main/jni/libevent/bufferevent_ratelim.c:393-439 | the refill event resumes a suspended direction if and only if the ticks that it counts lift the limit above zero |
| `RateLimit.ResumedIff` | core/src/main/jni/libevent/bufferevent_ratelim.c:393-439 | however often it fires, the direction stays suspended exactly as long as the ticks counted do not make up for what is missing |
| `RateLimit.LongerTicksStall` | core/src/main/jni/libevent/bufferevent_ratelim.c:55-68 | after ticks have been made longer, none is counted for a long time, and a direction stays suspended although the refill event fires |
| `RateLimit.Bandwidth` | core/src/main/jni/libevent/bufferevent_ratelim.c:197-258 | in any window that begins with a transfer, with any refills in it, the bytes moved in a direction are at most burst + rate for every tick after that transfer |
| `RateLimit.MovesAll` | core/src/main/jni/libevent/bufferevent_ratelim.c:197-258 | a transfer may move the whole limit that it finds, up to what it asks for, and moves it: no bandwidth is withheld |
| `TagCodec.EncodeInt` | core/src/main/jni/libevent/event_tagging.c:117-150 | the in-place nibble loop writes exactly the digit count and the digits, lowest first |
| `TagCodec.IntFormat` | core/src/main/jni/libevent/event_tagging.c:104-150 | the bytes of a number in terms of its value alone: the count of its digits less one in the high half of the first byte, then its hexadecimal digits, lowest first, in as few as can be |
| `TagCodec.DecodedRight` | core/src/main/jni/libevent/event_tagging.c:315-373 | for all bytes: the number read has exactly the digits that are in the bytes, and reading fails exactly if the count is too big for the word or more than there is |
| `TagCodec.DecodeInt` | core/src/main/jni/libevent/event_tagging.c:315-373 | the reading loop gives the value of the digits, or fails exactly on too many digits or too few bytes |
| `TagCodec.IntRoundTrip` | core/src/main/jni/libevent/event_tagging.c:117-373 | reading undoes writing and does not look at what follows |
| `TagCodec.DecodedFits` | core/src/main/jni/libevent/event_tagging.c:315-373 | what is read always fits its word |
| `TagCodec.EncodeTag` | core/src/main/jni/libevent/event_tagging.c:173-194 | the tag in groups of 7 bits with continuation bits |
| `TagCodec.TagFormat` | core/src/main/jni/libevent/event_tagging.c:173-194 | the bytes of a tag in terms of its value alone: its 7-bit groups, as few as can be, with the high bit set in all bytes but the last |
| `TagCodec.TagRight` | core/src/main/jni/libevent/event_tagging.c:196-242 | for all bytes: the tag read is the value of the groups up to the first byte without the high bit, and reading fails exactly if that byte is not among the first five or the number passes 32 bits |
| `TagCodec.DecodeTag` | core/src/main/jni/libevent/event_tagging.c:196-242 | the shifting loop computes the tag, or fails exactly beyond 5 bytes or 32 bits |
| `TagCodec.TagRoundTrip` | core/src/main/jni/libevent/event_tagging.c:173-242 | every 32-bit tag reads back, whatever follows |
| `Tagging.HeadRoundTrip` | core/src/main/jni/libevent/event_tagging.c:256-263 | header and payload of a record that was written are found again, whatever follows |
| `Tagging.IntRecordRoundTrip` | core/src/main/jni/libevent/event_tagging.c:484-534 | a marshalled integer reads back and what follows is untouched |
| `Tagging.UnmarshalIntRight` | core/src/main/jni/libevent/event_tagging.c:484-534 | for all bytes: an integer is read exactly if the record is there, has the tag, and its payload alone holds an integer; what has been drained in every other case |
| `Tagging.TimeRoundTrip` | core/src/main/jni/libevent/event_tagging.c:306-313 | a time reads back with the low 32 bits of its numbers: as itself if and only if both are unsigned 32-bit numbers |
| `Tagging.UnmarshalTimeRight` | core/src/main/jni/libevent/event_tagging.c:579-605 | for all bytes: a time is read exactly if the record is there, has the tag, is shorter than 2^31 bytes, and its payload alone holds two integers; what has been drained in every other case |
| `Tagging.PeekIsConsumed` | core/src/main/jni/libevent/event_tagging.c:401-463 | for every buffer, consume removes exactly what peek_length reports if and only if the whole payload is there, and its length is below 2^31 or it ends the buffer and nothing wraps; what cannot be peeked cannot be consumed |
| `Tagging.PeekAndConsume` | core/src/main/jni/libevent/event_tagging.c:401-463 | for all bytes: a length is reported exactly if tag and length are there; a record is consumed exactly if all of it is there and its length is not that of -1, and from 2^31 bytes on everything goes away |
| `Tagging.PeekDisagrees` | core/src/main/jni/libevent/event_tagging.c:401-463 | a payload of 2^31 bytes with a byte behind it: consume drains that byte too |
| `Tagging.PeekedTooEarly` | core/src/main/jni/libevent/event_tagging.c:401-463 | a header whose payload has not come: peek_length reports 3 bytes, consume fails and has drained the header |
| `Tagging.TaggedBuffer.Marshal` | core/src/main/jni/libevent/event_tagging.c:256-263 | appends the record |
| `Tagging.TaggedBuffer.MarshalInt` | core/src/main/jni/libevent/event_tagging.c:276-297 | appends the record of an integer of 32 or 64 bits |
| `Tagging.TaggedBuffer.MarshalTimeval` | core/src/main/jni/libevent/event_tagging.c:306-313 | appends the record of a time |
| `Tagging.TaggedBuffer.UnmarshalHeader` | core/src/main/jni/libevent/event_tagging.c:437-451 | drains the header and returns the length as a signed int, -1 on failure |
| `Tagging.TaggedBuffer.Consume` | core/src/main/jni/libevent/event_tagging.c:453-463 | drains one record; a length that turned negative drains everything |
| `Tagging.TaggedBuffer.PeekLength` | core/src/main/jni/libevent/event_tagging.c:401-417 | header plus payload length in 32 bits, nothing drained |
| `Tagging.TaggedBuffer.Unmarshal` | core/src/main/jni/libevent/event_tagging.c:466-480 | moves one payload to another buffer, whatever follows it; fails for a bad header, and with the header drained and nothing moved for a payload of 2^31 bytes or more |
| `Tagging.TaggedBuffer.UnmarshalInt` | core/src/main/jni/libevent/event_tagging.c:484-534 | reads an integer record with the expected tag, and drains it even if the integer is bad |
| `Tagging.TaggedBuffer.UnmarshalTimeval` | core/src/main/jni/libevent/event_tagging.c:579-605 | reads a time record with the expected tag, and drains it even if it is bad |
| `Tagging.UnmarshalAll` | core/src/main/jni/libevent/event_tagging.c:466-480 | a stream of records with such payloads reads back as the records, and leaves what follows |
| `Arc4.SwappedRight` | core/src/main/jni/libevent/arc4random.c:425-437 | exchanging two places keeps the state a permutation |
| `Arc4.MixedRight` | core/src/main/jni/libevent/arc4random.c:107-123 | every step of the key schedule moves on by one place, adds the byte there and the next byte of the data, going round, and exchanges the two places |
| `Arc4.EveryByte` | core/src/main/jni/libevent/arc4random.c:84-104 | a state without repeats holds every byte |
| `Arc4.Stream.AddRandom` | core/src/main/jni/libevent/arc4random.c:107-123 | the state afterwards is 256 steps of the key schedule, going round the data, with j set to i; it is still a permutation |
| `Arc4.Stream.GetByte` | core/src/main/jni/libevent/arc4random.c:425-437 | one exchange, and the byte that the sum of the two picks |
| `Uniform.MinIsRemainder` | core/src/main/jni/libevent/arc4random.c:530-541 | the 32-bit computation is 2^32 mod the bound, for every bound of at least 2 |
| `Uniform.Unbiased` | core/src/main/jni/libevent/arc4random.c:543-555 | each residue below the bound is hit by exactly floor(2^32 / bound) accepted words |
| `Uniform.MostAccepted` | core/src/main/jni/libevent/arc4random.c:543-548 | more than half of all words are accepted |
| `Uniform.Draw` | core/src/main/jni/libevent/arc4random.c:522-555 | the first accepted word, reduced; 0 for a bound below 2 |

## Left out

- Links: the other modules take the order of a chunk list from a sequence; that the pointer writes make that order is proved for the addresses of the lists, with one lemma (`MoveIsEdit` and the like) for each way in which an operation changes a list, and not inside the class `EvBuffer`.
- Pinned, immutable, reference, multicast, file-segment and sendfile chunks, evbuffer callbacks, freeze flags and locking.
- evbuffer_prepend_buffer and evbuffer_commit_space, which can leave an empty chunk ahead of data; evbuffer_reserve_space and evbuffer_peek.
- BufferRuns.Run: memory does not run out in a run; what each operation does then is in its own contract.
- BufferRuns.Step: the same.
- EvBuffers.EvBuffer.AddBuffer: requires that the two lengths do not overflow together, because the code adds them without a test.
- Expansion.Read: requires that the length does not overflow, for the same reason.
- Expansion.ReadSetupVecs: a negative size, which no caller passes, is not modelled.
- Edge-triggered bits and signals in the descriptor maps, failing epoll_ctl calls other than for a lost or kept descriptor, and the size of the change array.
- EvMap.EventBase.DelEvent: does not model a backend that fails to delete, after which the code goes on with counts that the kernel does not match.
- GetAddrInfo: a shutdown that is asked not to fail its requests, allocation failure while answers are built, canonical names, and the values of the counters of answers and timeouts.
- DnsMessage.DnsNameToLabels: models the call with a label table and a buffer of at most 2^14 bytes, which is as far as a compression pointer reaches; its caller has 1500.
- DnsNames.NameParse: output is a value instead of a C array; a packet is at most as long as an int.
- RequestTable: search-list retries, retransmission, servers going up and down, and clearing all servers; `who` stands for the request object.
- RequestTable.Base.TransactionIdPick: the random loop is a choice of any free id; that it ends is not claimed beyond there being one.
- RequestTable.Base.SetMaxRequestsInflight: requires a limit of at most 65000, which is where the option is clipped.
- EventLoop: signals, blocking deletes and notification of other threads; the min-heap is a collection whose earliest element is found by a scan.
- EventLoop.Loop.DelNolock: the backend's part in a delete is in EvMap and not repeated here.
- EventLoop.Loop.Add: re-adding a persistent event is an ordinary add with an absolute deadline.
- EventRuns.OkIsConsistent: heap order and heap indices, which the scan has no use for, and the integrity of the descriptor maps, which EvMap keeps, are not part of it.
- RateLimit: groups, bits other than bandwidth in the suspend masks, and failing event_add.
- Tagging: a tagged buffer is its flat content, which is what the buffer part proves an evbuffer to be; evtag_unmarshal_fixed and evtag_unmarshal_string add nothing to the header and payload results.
- Arc4: seeding, stirring and reseeding; what is claimed of the stream is its state, not its randomness.
- Sockets, resolv.conf and hosts parsing, bufferevents other than rate limits, the other backends, and everything outside libevent.
