# Verified model of myhttp's byte array and fiber runtime

A Dafny 4.11 model of two parts of the myhttp network library. `dafny verify dfyconfig.toml` checks everything.

**The byte array and its streams.** `ByteArray` is a singly linked list of fixed-size blocks with a cursor, a high-water mark
and a capacity. The class in `ByteArray.dfy` is proved to act as one flat byte sequence with a cursor (`Flat.dfy`), including
every case in which the code would follow a null block. On top stand the fixed-width, varint, zigzag and string codecs
(`Codecs.dfy` for the mathematics, after "Base 128 Varints" and "Signed Integers" in the Protocol Buffers encoding, and
`ByteArrayCodecs.dfy` for the methods), the round trip of whole record lists (`Records.dfy`), the scatter and gather windows,
and the socket loops (`Streams.dfy`). `Capacity.dfy` settles how many blocks are linked.

**The fiber runtime.** Specifications on values carry the theorems; classes with the source's fields are proved against them.

| part | on values | as objects | over runs |
|---|---|---|---|
| timer set | `Timers.dfy` | `TimerManager.dfy` | `TimerRuns.dfy` |
| readiness table | `Readiness.dfy` | `IOManager.dfy` | `Readiness.dfy` |
| run queue, fibers, workers | `Scheduling.dfy` | `Scheduler.dfy` | `Scheduling.dfy` |
| all of them together | `Runtime.dfy` | | `RuntimeRuns.dfy`, `Leaving.dfy` |
| do_io and connect_with_timeout | `HookIo.dfy` | `HookCalls.dfy` | `HookRuns.dfy`, `Timeouts.dfy` |

A step of the transition systems is one section under a lock, or a switch of fibers together with the worker's book-keeping
up to its next lock. Parameters stand for what the program does not decide: `now` for the clock, `ctl` for whether the kernel accepts a
legal epoll_ctl, `probe` for the address of the temporary timer that `listExpiredCb` compares with, `script` for the results
of the transport, `host` for the byte order of the machine. A failed assertion, erasing the end iterator and following a null
pointer end the program; each is an outcome of its own.

## Where the code and its intent part

The code is modelled as it is; these are results.

- `addCapacity` does not always make the room its declaration promises. `Growth` chooses between the shipped formula and
  rounding up; every theorem says which it needs, and `Capacity.ShippedSufficesIff` is the exact condition.
- The positioned `read` starts in the cursor's block (`ByteArrays.ByteArray.PositionedReadIff`), `read` of nothing at the
  capacity follows a null block, and so does reading back an empty string that ends there (`Records.RecordsRoundTrip`).
- 64-bit zigzag keeps 32 bits (`Codecs.Zigzag64Iff`).
- A result of -1 in a `size_t` makes the fixed-size loops go on with one more byte to move, and a stream that is not
  connected counts up until that wraps to zero and then reports the full length with nothing moved (`Streams.Tally`,
  `Streams.SocketStream.WriteFixSize`).
- An event with EPOLLERR or EPOLLHUP for a descriptor with one registered direction fails an assertion
  (`Readiness.DispatchSpec`, `Readiness.LoneReaderAndError`).
- A dead fiber in the run queue would leave the active count one too high (`Schedulers.Worker.Turn`); no run queues one
  (`Runtime.ClaimedIsFree`), as long as a fiber arranges to be woken at most once before it holds, and not at all before it
  yields ready or ends.
- `IOManager::stopping` reads three things in three sections, and what a worker has in hand on the way to the run queue is
  in none of them. `Leaving.YesIsRightIff` says exactly when a yes is right, `Leaving.LeavesWithTimer` and
  `Leaving.CarriedEscapes` give runs in which it is not, and in the run of `Leaving.AllLeaveWithTimer` every thread ends
  with a fiber still asleep; `Leaving.LastOneOutIff` says exactly when that happens, `Leaving.SomeoneStays` what rules it
  out.
- A timeout can be lost (`Timeouts.LostIff` says exactly when), can end a later round of the same call early
  (`Timeouts.StaleRoundTimesOut`), and can wake another call after its own has returned (`Timeouts.LateCancelHitsNextCall`);
  `Timeouts.LeftoverActsIff` says exactly which timers left over from a call can do so, one that was only collected when
  the call returned among them (`Timeouts.ReturnsWhileKept`).
- Two idle workers that drain at the same time can dereference the end of an emptied timer set (`TimerRuns.LooksAtEndIff`),
  and two calls of addEvent that both find the table too short can cut it (`Readiness.LateGrowthIff`).

## Model

| member | source | states |
|---|---|---|
| `Capacity.ShippedSufficesIff` | myhttp/bytearray.cpp:522 | the shipped block count makes room for `size` bytes exactly when the shortfall is zero, a multiple of the block size, or has a remainder above the old free space |
| `Capacity.ShippedStraddle` | myhttp/bytearray.cpp:508-524 | a write of at most one block that crosses a block boundary gets its room exactly when more than half of it lies beyond |
| `Capacity.ShippedFallsShort` | myhttp/bytearray.cpp:522 | a concrete request for which the shipped formula links no block although one is needed |
| `Capacity.ShippedShortByOne` | myhttp/bytearray.cpp:522 | wherever the shipped formula misses the promise it links exactly one block fewer than rounding up |
| `Capacity.CeilingSuffices` | myhttp/bytearray.h:473-476 | rounding up always makes the promised room, with fewer than one block to spare |
| `Capacity.FullArrayGrows` | myhttp/bytearray.cpp:508-524 | with no free space both formulas link a block and make enough room |
| `FlatBytes.WriteFrame` | myhttp/bytearray.cpp:343-380 | a write puts its bytes at [pos, pos+n), changes no other byte, moves the cursor by n and raises the size only if it passes it |
| `FlatBytes.WriteSucceeds` | myhttp/bytearray.cpp:343-380 | when a write can never run off the block list: rounding up, a full array, or enough room already (then the capacity stays) |
| `FlatBytes.ReadBack` | myhttp/bytearray.cpp:382-411 | reading from the old cursor returns what was written and ends where the write ended |
| `FlatBytes.WriteWrite` | myhttp/bytearray.cpp:343-380 | two writes leave the bytes of one write of both |
| `ByteArrays.ByteArray.constructor` | myhttp/bytearray.cpp:33-41 | one block of the given size, empty content, cursor at 0 in that block, big-endian; the invariant of the other methods holds unless the block size is 0 |
| `ByteArrays.ByteArray.Clear` | myhttp/bytearray.cpp:329-341 | empty again with one block, whose bytes stay as they were |
| `ByteArrays.ByteArray.Write` | myhttp/bytearray.cpp:343-380 | on the block list it is the flat write: same bytes, cursor, size and capacity, every byte outside the window untouched; it follows a null block exactly when the linked blocks do not reach far enough |
| `ByteArrays.ByteArray.Read` | myhttp/bytearray.cpp:382-411 | the flat read over block boundaries; out of range above the readable bytes; follows a null block exactly for a read of nothing at the capacity |
| `ByteArrays.ByteArray.ReadAt` | myhttp/bytearray.cpp:413-443 | which bytes the positioned read really returns, and exactly when it throws or follows a null block: it starts in the cursor's block at the offset of `position` |
| `ByteArrays.ByteArray.PositionedReadIff` | myhttp/bytearray.cpp:413-443 | the positioned read starts at `position` exactly when that lies in the cursor's block |
| `ByteArrays.ByteArray.ToString` | myhttp/bytearray.cpp:545-554 | the content from the cursor to the end, on every state |
| `ByteArrays.ByteArray.SetPosition` | myhttp/bytearray.cpp:445-464 | moves the cursor to any place up to the capacity, raises the size if passed, changes no byte; throws exactly above the capacity |
| `ByteArrays.ByteArray.CursorBlock` | myhttp/bytearray.cpp:445-464 | m_cur is block number position / base, and null exactly when position == capacity |
| `ByteArrays.ByteArray.AddCapacity` | myhttp/bytearray.cpp:508-543 | links the computed number of blocks behind the last, keeps all bytes, cursor and size, and gives a cursor that was null its block |
| `ByteArrays.ByteArray.GetReadBuffers` | myhttp/bytearray.cpp:571-595 | the windows on min(len, readable) bytes from the cursor, block by block |
| `ByteArrays.ByteArray.GetReadBuffersAt` | myhttp/bytearray.cpp:597-630 | the same windows from any position, hence both overloads agree at the cursor; follows a null block exactly when position + n passes the capacity |
| `ByteArrays.ByteArray.GetWriteBuffers` | myhttp/bytearray.cpp:632-662 | windows on the next len bytes after growing; content, cursor and size stay; walks off the list exactly when the growth falls short |
| `ByteArrays.ByteArray.WindowsHold` | myhttp/bytearray.cpp:571-595 | the windows joined are exactly the bytes of the range they were made for |
| `ByteArrays.ByteArray.WindowsInside` | myhttp/bytearray.cpp:571-595 | every window is non-empty and inside one block of the array |
| `ByteArrays.ByteArray.Fill` | myhttp/bytearray.cpp:632-662 | bytes put into the windows in order land at consecutive positions and nowhere else |
| `Codecs.VarintLength` | myhttp/bytearray.cpp:142-152 | a varint takes at most n bytes exactly when the value is below 2^(7n): the encoding is minimal |
| `Codecs.VarintFitsScratch` | myhttp/bytearray.cpp:142-167 | never more than the 5 or 10 bytes of the scratch array |
| `Codecs.VarintRoundTrip` | myhttp/bytearray.cpp:247-263 | decoding returns the value and consumes exactly its bytes, whatever follows |
| `Codecs.VarintConsumes` | myhttp/bytearray.cpp:269-281 | on any bytes at all the decoder stops within ceil(bits/7) bytes, follows no null block and changes nothing |
| `Codecs.VarInWord` | myhttp/bytearray.cpp:247-281 | whatever it decodes fits the word |
| `Codecs.OrAddsDisjointBits` | myhttp/bytearray.cpp:250-262 | the bitwise or of a group shifted by i with a word below 2^i is an addition |
| `Codecs.GroupShifts` | myhttp/bytearray.cpp:250 | the bounds of those words are 2^i for every shift of the loops |
| `Codecs.GroupStaysBelow` | myhttp/bytearray.cpp:250-262 | what the loop has read before the group at shift i is below 2^i, also where the top bits are cut off |
| `Codecs.ZigzagOrder` | myhttp/bytearray.cpp:112-129 | zigzag takes v to 2v, or to -2v-1 below zero, with wrap-around of the machine words spelled out |
| `Codecs.Zigzag32Inverse` | myhttp/bytearray.cpp:112-133 | 32-bit encode and decode undo each other in both directions on the whole range |
| `Codecs.Zigzag64Iff` | myhttp/bytearray.cpp:121-137 | the shipped 64-bit pair returns its argument exactly when that fits 32 signed bits |
| `Codecs.Zigzag64Fails` | myhttp/bytearray.cpp:135-137 | a value on which it does not |
| `Codecs.Decode64IsNarrow` | myhttp/bytearray.cpp:135-137 | the 64-bit decoder never returns more than 32 bits |
| `Codecs.ZigzagLength` | myhttp/bytearray.cpp:139-145 | a signed value takes at most n <= 4 bytes exactly when it lies in [-2^(7n-1), 2^(7n-1)) |
| `Codecs.XorComplements` | myhttp/bytearray.cpp:131-137 | the `(v >> 1) ^ -(v & 1)` of the source keeps the halved word when the low bit is clear and complements it when it is set, in both widths |
| `Codecs.WireBack` | myhttp/bytearray.cpp:65-109 | a fixed-width value comes back from its bytes in either byte order, cut to its low bytes |
| `Codecs.WireSwapped` | myhttp/bytearray.cpp:73-109 | with a foreign byte order the bytes are those of the host reversed |
| `Codecs.WordBack` | myhttp/bytearray.cpp:65-109 | signed and unsigned values survive the conversion to a machine word and back |
| `ByteArrayCodecs.WriteFixed` | myhttp/bytearray.cpp:65-109 | writes the bytes of the word in the chosen order as one flat write |
| `ByteArrayCodecs.EncodeVarint` | myhttp/bytearray.cpp:142-152 | the loop fills its scratch array, never past its end, with the varint of the value |
| `ByteArrayCodecs.WriteVarint` | myhttp/bytearray.cpp:142-167 | is one flat write of the varint |
| `ByteArrayCodecs.WriteZigzag` | myhttp/bytearray.cpp:139-141 | is one flat write of the varint of the zigzag code |
| `ByteArrayCodecs.WriteString` | myhttp/bytearray.cpp:180-193 | the length in the prefix's width, then the bytes; either write may be the one that falls short |
| `ByteArrayCodecs.ReadFixed` | myhttp/bytearray.cpp:203-241 | agrees with the flat fixed-width read, failures included |
| `ByteArrayCodecs.ReadVarint` | myhttp/bytearray.cpp:247-281 | the loop agrees with the flat decoder, failures included, its partial result below 2^i at every shift i |
| `ByteArrayCodecs.ReadZigzag` | myhttp/bytearray.cpp:243-245 | agrees with the flat decoder and the zigzag decoder on its result |
| `ByteArrayCodecs.ReadString` | myhttp/bytearray.cpp:296-318 | agrees with the flat reader; an empty string at the capacity follows a null block |
| `Records.RecordsRoundTrip` | myhttp/bytearray.cpp:65-318 | any list of records written and read back from the old cursor with the same types is the same list and ends where the writing ended, in either byte order over any block boundaries; except exactly when the last record is an empty string that ends at the capacity |
| `Records.CeilingRoundTrip` | myhttp/bytearray.cpp:65-318 | with rounding up every list can be written, and comes back if and only if it does not end in that way |
| `Records.ShippedRoundTripFails` | myhttp/bytearray.cpp:522 | a list of two records that cannot be written with the shipped block count |
| `Records.WriteChunksIff` | myhttp/bytearray.cpp:343-380 | a series of writes succeeds exactly when the block count suffices at each of them |
| `Records.WriteChunksIsConcat` | myhttp/bytearray.cpp:343-380 | a series of writes leaves the bytes of one write of all of them |
| `Records.StringBackIff` | myhttp/bytearray.cpp:180-192 | a string comes back exactly when its size fits its prefix; otherwise its first size mod 2^w bytes do |
| `Streams.SocketStream.WriteFrom` | myhttp/socket_stream.cpp:48-59 | sends the bytes from the cursor as far as the transport took them, and moves the cursor by as many |
| `Streams.SocketStream.ReadInto` | myhttp/socket_stream.cpp:24-39 | what was received stands at the old cursor, all else is unchanged, the cursor is behind it; it needs room for the whole request |
| `Streams.SocketStream.WriteFixSize` | myhttp/stream.cpp:45-55 | for every split of the transport: sent is exactly content[old cursor, cursor) in order, the content is unchanged, what is left plus what was sent is the length, one more for each failed call; returns 0 if stopped early |
| `Streams.SocketStream.ReadFixSize` | myhttp/stream.cpp:19-29 | for every split: old prefix and the received bytes in order, cursor behind them, the same books; with a transport that does not fail it gets through exactly when the growth suffices for the length |
| `Streams.Tally` | myhttp/stream.cpp:19-29 | what one result in a size_t does to `left`: -1 makes it one longer, or wraps it to 0 |
| `Streams.FillAndAdvance` | myhttp/socket_stream.cpp:31-37 | filling the first k bytes of the write windows and setPosition makes exactly those bytes readable at the old cursor |
| `Timers.FindsIffMember` | myhttp/timer.cpp:47-48 | in an ordered set the lookup finds exactly the members, each at its own place |
| `Timers.InsertKeepsSorted` | myhttp/timer.cpp:225-227 | insertion keeps the order and adds exactly the timer |
| `Timers.EraseKeepsSorted` | myhttp/timer.cpp:44-53 | a member is found, and erasing it keeps the order and removes exactly it |
| `TimerRuns.StepKeepsInv` | myhttp/timer.cpp:44-244 | every operation keeps: set in order, a timer created with a callback is in it exactly as long as the callback is there |
| `TimerRuns.CancelFinds` | myhttp/timer.cpp:44-53 | the lookup of cancel always succeeds; it says yes exactly for a live timer, which is then out of the set |
| `TimerRuns.DrainExact` | myhttp/timer.cpp:170-223 | without rollover a prefix of the deadline order with every timer due before now and none due after, with rollover all; their callbacks in order; recurring ones back at now + ms, one-shot ones without callback; all others unchanged |
| `TimerRuns.GetNextExact` | myhttp/timer.cpp:152-168 | the value is the exact wait until the earliest deadline, 0 if that has passed, none exactly for an empty set |
| `TimerRuns.OneShotEndsOnce` | myhttp/timer.cpp:44-53 | over any run that does not give its address to a new timer: collections plus successful cancels of a one-shot timer are one when it is no longer alive and none while it is |
| `TimerRuns.NoLostShortening` | myhttp/timer.cpp:152-244 | with a clock that does not run back, after every run m_tickled is up or nothing is due before the deadline the last getNextTimer saw |
| `TimerRuns.FrontAtMostOnce` | myhttp/timer.cpp:225-244 | between two calls of getNextTimer onTimerInsertedAtFront is called at most once |
| `TimerRuns.DeadlineStays` | myhttp/timer.cpp:55-116 | the key of a timer never changes unless it is refreshed, reset, cancelled or collected |
| `TimerRuns.RecurringSpacing` | myhttp/timer.cpp:214-219 | two drains in a row of an unmodified recurring timer are at least its interval apart |
| `TimerManagers.TimerManager.Find` | myhttp/timer.cpp:47 | the object lookup is the lookup of the ordered set, end iterator included |
| `TimerManagers.TimerManager.Cancel` | myhttp/timer.cpp:44-53 | new state and answer are those of the specification; so is erasing the end iterator |
| `TimerManagers.TimerManager.Refresh` | myhttp/timer.cpp:55-77 | new state and answer are those of the specification |
| `TimerManagers.TimerManager.Reset` | myhttp/timer.cpp:79-116 | whatever the test before the lock saw of the interval, and whatever others did since: new state, answer and front flag are those of the specification |
| `TimerManagers.TimerManager.ResetLocked` | myhttp/timer.cpp:85-116 | the locked section from whatever the timer has become: out of the set and back under its new key, or no for a dead timer or one that is not found |
| `TimerManagers.TimerManager.AddTimer` | myhttp/timer.cpp:127-134 | a new object in the set at its place; the front flag as specified |
| `TimerManagers.TimerManager.PublishTimer` | myhttp/timer.cpp:225-244 | insertion and the front flag as specified |
| `TimerManagers.TimerManager.GetNextTimer` | myhttp/timer.cpp:152-168 | value and lowered m_tickled as specified |
| `Timers.RolloverIff` | myhttp/timer.cpp:246-257 | the test answers yes exactly for a step back of more than an hour, or for any step back within the first hour of the counter, where the unsigned subtraction wraps |
| `TimerRuns.LooksAtEndIff` | myhttp/timer.cpp:174-188 | after the test under the read lock, whatever operations others do, the section under the write lock dereferences the end of the set exactly when as many timers were taken out as there were and came, and the clock was not set back |
| `TimerRuns.SecondDrainerLooksAtEnd` | myhttp/timer.cpp:174-188 | two drains and one due timer: both tests see it, the second write section dereferences the end |
| `TimerManagers.TimerManager.DrainLocked` | myhttp/timer.cpp:180-223 | the section under the write lock from any state of the set: a look at the end exactly when the specification says so, otherwise the state of every object and the callbacks of the specified drain |
| `TimerManagers.TimerManager.ListExpiredCb` | myhttp/timer.cpp:170-223 | whatever the test under the read lock saw, and whatever others did since: nothing at all, or a look at the end of the set exactly when the specification says so, or the specified drain |
| `TimerManagers.TimerManager.CollectTimers` | myhttp/timer.cpp:214-222 | the loop over the expired timers gives the specified result |
| `Readiness.AddSpec` | myhttp/iomanager.cpp:101-159 | fails its assertion exactly on a taken slot; otherwise succeeds exactly when the kernel takes it (so ADD or MOD was legal), and then the task waits in that slot, the counter is one up and no other slot changed; a refusal changes nothing |
| `Readiness.DelSpec` | myhttp/iomanager.cpp:160-196 | forgets exactly who waited in the slot, exactly when somebody does and the kernel agrees; nothing is sent |
| `Readiness.CancelSpec` | myhttp/iomanager.cpp:197-230 | sends exactly who waited in the slot, exactly when somebody does and the kernel agrees; no other slot changes; its assertions never fail |
| `Readiness.CancelAllSpec` | myhttp/iomanager.cpp:232-270 | sends who waited on the descriptor, READ first; nothing is left armed on it |
| `Readiness.DispatchSpec` | myhttp/iomanager.cpp:356-404 | the dispatch of one event fails its assertion exactly when it meets a registered direction and also reports an unregistered one and the kernel agrees; otherwise sends exactly who waited in the reported directions |
| `Readiness.LoneReaderAndError` | myhttp/iomanager.cpp:367-400 | the run that fails: a lone reader and EPOLLERR |
| `Readiness.TriggerBothSpec` | myhttp/iomanager.cpp:33-47 | triggering works exactly for registered events, empties their contexts wholly and sends who held them |
| `Readiness.NothingLostOrDoubled` | myhttp/iomanager.cpp:101-404 | after any run: every bit agrees with its context and with the kernel's mask, the counter is the number of set bits, and each task was accepted as often as it waits, was dropped and was sent together |
| `Readiness.StartOk` | myhttp/iomanager.cpp:78 | a new table agrees with itself |
| `Readiness.GrownOk` | myhttp/iomanager.cpp:91-115 | growing the table is invisible: same waiters, counter and kernel |
| `Readiness.LateGrowthIff` | myhttp/iomanager.cpp:101-117 | if others grew the table between the lookup and the growth, the growth can cut it; that forgets nobody exactly when nothing is armed at or beyond the new length |
| `IOManagers.IOManager.constructor` | myhttp/iomanager.cpp:78 | 32 fresh contexts, nothing pending |
| `IOManagers.IOManager.ContextResize` | myhttp/iomanager.cpp:91-100 | keeps or cuts the old objects and fills up with fresh ones |
| `IOManagers.IOManager.AddEvent` | myhttp/iomanager.cpp:101-159 | state and answer are those of the specification |
| `IOManagers.IOManager.DelEvent` | myhttp/iomanager.cpp:160-196 | state and answer are those of the specification |
| `IOManagers.IOManager.CancelEvent` | myhttp/iomanager.cpp:197-230 | state, answer and what is scheduled are those of the specification |
| `IOManagers.IOManager.CancelAll` | myhttp/iomanager.cpp:232-270 | state, answer and what is scheduled are those of the specification |
| `IOManagers.IOManager.Dispatch` | myhttp/iomanager.cpp:356-404 | state and what is scheduled are those of the specification |
| `IOManagers.IOManager.DispatchLoop` | myhttp/iomanager.cpp:353-405 | the loop over the answer of epoll_wait, the tickle pipe skipped, leaves the state and schedules the tasks of the specified fold, in order |
| `IOManagers.Context.TriggerEvent` | myhttp/iomanager.cpp:33-47 | empties the context and hands out its task, or fails the assertion, as specified |
| `Scheduling.ScheduleAllSpec` | myhttp/scheduler.h:97-110 | a batch appends its non-empty entries in order and asks for a tickle exactly when it found the queue empty |
| `Scheduling.SearchSpec` | myhttp/scheduler.cpp:165-185 | takes the first entry this worker may run, a pinned one only on its thread, a running fiber never; tickle_me exactly when it passed an entry pinned elsewhere |
| `Scheduling.FollowSpec` | myhttp/scheduler.cpp:165-185 | a claim keeps the order of the rest; a waiting entry never moves back, and each search that could have taken it moves it forward |
| `Scheduling.BoundedOvertaking` | myhttp/scheduler.cpp:165-185 | over any run, an entry with p entries before it is claimed at the latest by the (p+1)-th search that could take it |
| `Schedulers.Scheduler.ScheduleNoLock` | myhttp/scheduler.h:149-157 | queue and answer as specified; an empty entry is not queued |
| `Schedulers.Scheduler.ScheduleBatch` | myhttp/scheduler.h:97-110 | the loop appends exactly the non-empty entries |
| `Schedulers.Scheduler.Claim` | myhttp/scheduler.cpp:157-186 | the loop takes what the specified search takes, counts it active, leaves the rest in order, and its assertion never fails |
| `Schedulers.Fiber.Reset` | myhttp/fiber.cpp:96-111 | its assertion holds exactly in INIT, TERM and EXCEPT |
| `Schedulers.Fiber.Run` | myhttp/fiber.cpp:113-189 | the assertion of swapIn holds exactly outside EXEC; the state each way of giving the worker back leaves |
| `Schedulers.Worker.RunFiber` | myhttp/scheduler.cpp:195-212 | one turn with a fiber: count undone, READY is queued again once, otherwise the state stays as left |
| `Schedulers.Worker.RunCallback` | myhttp/scheduler.cpp:214-240 | one turn with a callback never fails an assertion: a kept fiber is always INIT, one that was handed on is never kept |
| `Schedulers.Worker.RunIdle` | myhttp/scheduler.cpp:241-256 | leaves exactly when the idle fiber is TERM |
| `Schedulers.Worker.Turn` | myhttp/scheduler.cpp:155-257 | one whole turn: no assertion fails; the active count is as before unless a dead fiber was taken from the queue, where it stays one up; claims the specified entry; leaves only with nothing claimed or a dead fiber |
| `Runtime.StepGood` | myhttp/scheduler.cpp:155-257 | every step of the runtime keeps the invariant on who holds each fiber, and no assertion of reset, swapIn or the search fails |
| `Runtime.ClaimedIsFree` | myhttp/scheduler.cpp:186-195 | a claimed fiber is alive, not running, and is in no queue, timer or table slot: the branch for dead fibers is never reached |
| `Runtime.SpareIsFresh` | myhttp/scheduler.cpp:218-222 | a worker's kept fiber is known, INIT and queued nowhere |
| `Runtime.RunsAlone` | myhttp/fiber.cpp:113-121 | the fiber inside a worker is EXEC, and nobody else has arranged for it to be woken |
| `RuntimeRuns.StartGood` | myhttp/scheduler.cpp:64-79 | a started scheduler meets the invariant, whatever the number of threads |
| `RuntimeRuns.RunGood` | myhttp/scheduler.cpp:155-257 | so does every state of every run, and no run fails an assertion |
| `RuntimeRuns.MutualExclusion` | myhttp/scheduler.cpp:165-211 | no fiber is inside two workers, claimed by two, or claimed by one while inside another |
| `RuntimeRuns.OnePlace` | myhttp/iomanager.cpp:33-47 | queue, claims, timers, callbacks on their way and table together hold a fiber at most once: exactly once if ready or waiting undeleted, never once it has ended |
| `RuntimeRuns.RunningPlace` | myhttp/fiber.cpp:113-159 | a running fiber is found nowhere, or exactly once after it arranged to be woken |
| `RuntimeRuns.NobodyIsForgotten` | myhttp/iomanager.cpp:33-47 | over a run where fibers hold only after arranging to be woken and no event is deleted, every fiber on hold is in exactly one place |
| `Leaving.CalmMeansIdle` | myhttp/iomanager.cpp:294-299 | with no timer, no event, an empty queue, no active worker, and nothing in a worker's hands on the way to the queue, no worker has a task and nobody waits on any descriptor |
| `Leaving.CalmForever` | myhttp/iomanager.cpp:294-299 | from then on no run of the workers, nor a request to stop, creates work again |
| `Leaving.QuietStep` | myhttp/iomanager.cpp:294-299 | with stop requested too, every step of a worker, each of the three reads by itself, brings it closer to leaving and keeps it so; only a stale report of the kernel changes nothing |
| `Leaving.QuietProgress` | myhttp/scheduler.cpp:241-256 | every worker that is left has such a step |
| `Leaving.QuietEnds` | myhttp/scheduler.cpp:241-256 | and the number of those steps is bounded by the ranks of the workers |
| `Leaving.YesIsRightIff` | myhttp/iomanager.cpp:294-299 | three yes from the three reads, with any steps of others between them: there is nothing to do at the last one exactly when as many timers went as came since the first, as many events since the second, and all that workers had or took in hand on the way to the queue was handed over |
| `Leaving.CalmGuard` | myhttp/iomanager.cpp:294-299 | if there was nothing to do at the first read, and no drained callback or ready fiber in a worker's hands, three yes are right whatever the workers do in between |
| `Leaving.CarriedEscapes` | myhttp/iomanager.cpp:340-349 | without the second half of that guard a yes can come too early even if the conjunction was true at all three reads: a worker that has drained callbacks, or counted itself out with a fiber that is ready again, queues them afterwards |
| `Leaving.CarryIsReachable` | myhttp/iomanager.cpp:340-349 | and that comes about from a started scheduler with two threads and one timer |
| `Leaving.LeavesWithTimer` | myhttp/iomanager.cpp:294-299 | the run in which an idle fiber ends with a timer in the set and the conjunction of the three was never true |
| `Leaving.LeavesWithWaiter` | myhttp/iomanager.cpp:294-299 | the same with a fiber that waits on a descriptor |
| `Leaving.RaceIsReachable` | myhttp/iomanager.cpp:294-299 | such a race comes about from a started scheduler with two threads |
| `Leaving.EndsAfterThreeReads` | myhttp/scheduler.cpp:242-256 | over any run an idle fiber ends only after three reads of its own in a row: no timer at the first, no event at the second, stop requested, an empty queue and no active worker at the third |
| `Leaving.SomeoneStays` | myhttp/iomanager.cpp:301-313 | over any run in which only workers make timers and events, and no worker takes a task after its idle fiber has ended, some idle fiber has not ended as long as a timer, an event or something in a worker's hands is left |
| `Leaving.StartWatched` | myhttp/scheduler.cpp:64-79 | a started scheduler meets what that theorem starts from |
| `Leaving.AllLeaveWithTimer` | myhttp/scheduler.cpp:155-257 | without that restriction it fails: from a started scheduler with two threads both end with a timer in the set and its fiber on hold for ever, all steps after the set-up being theirs |
| `Leaving.LastOneOutIff` | myhttp/scheduler.cpp:242-256 | over any run at whose end all idle fibers have ended, a timer or an event is left if and only if more timers came than went since the first read of the one that ended last, or more events since its second; with nothing in anybody's hands at its last read, and only workers' steps, if and only if that is so by then, and it is left for good |
| `HookIo.StepKeeps` | myhttp/hook.cpp:115-175 | every step of calls, timers, callbacks and table keeps the protocol's invariant; all rounds of a call share one timer_info, which its callbacks keep beyond the return |
| `HookRuns.EachRegistrationWakesOnce` | myhttp/hook.cpp:148-164 | over every run registrations and wake-ups of a call match one to one, and a blocked call waits in its own slot and nowhere else |
| `HookRuns.NothingLeftOnReturn` | myhttp/hook.cpp:148-175 | on every return the call waits nowhere in the table and none of its timers is in the set |
| `HookRuns.CallbackHitsIff` | myhttp/hook.cpp:137-144 | a callback with nothing between its four steps acts exactly if its call has not returned, or another callback of it keeps the timer_info, and nobody has marked it: it then marks its call and wakes exactly whoever is blocked on that direction, if the kernel agrees |
| `HookRuns.CallbackHitsItsOwn` | myhttp/hook.cpp:137-144 | so it changes no call but its own if no other call that has not returned is about that direction, or its call has returned and no callback keeps the timer_info |
| `HookRuns.LateCancelHitsIff` | myhttp/hook.cpp:142-143 | with steps in between, its cancelEvent wakes exactly whoever is blocked on that direction by then |
| `Timeouts.LostIff` | myhttp/hook.cpp:136-169 | over any run from before the call, or from any state in which it is not marked: a call with a limit that blocks in the end has lost its timeout if and only if the cancelEvent of the last of its callbacks on the way there ran before its last registration or was refused by the kernel |
| `Timeouts.OnItsWayOrLost` | myhttp/hook.cpp:136-169 | a blocked call with a limit is in exactly one of three cases: unmarked with its own timer in the set, collected or before its look at the mark, and no callback ahead; a callback of it between that look and cancelEvent; or lost |
| `Timeouts.TimeoutWorksIff` | myhttp/hook.cpp:136-169 | it is lost exactly when no timer of its own, let run through with nothing in between and a kernel that agrees, makes the call return ETIMEDOUT any more |
| `Timeouts.MarkedForGood` | myhttp/hook.cpp:139-143 | once a call is marked and none of its callbacks is between the look at the mark and cancelEvent, over any run none ever is again |
| `Timeouts.LeftoverActsIff` | myhttp/timer.cpp:136-142 | a timer left over from a call that has returned comes to cancelEvent in some run if and only if its callback is past the look at the mark; or nobody has marked the call and its callback has the timer_info in hand, or the timer was collected and another callback of the call keeps the timer_info |
| `Timeouts.StartMarksNobody` | myhttp/hook.cpp:116 | a system without calls meets what these theorems start from |
| `Timeouts.TimeoutBeforeRegistration` | myhttp/hook.cpp:136-161 | a run that loses the timeout: it fires and its callback runs between arming and registering |
| `Timeouts.RoundWithLateTimer` | myhttp/hook.cpp:119-171 | a round can end with its timer collected but its callback not yet run |
| `Timeouts.StaleRoundTimesOut` | myhttp/hook.cpp:119-171 | that callback then times out the next round while the timer of that round is still in the set |
| `Timeouts.BothMark` | myhttp/hook.cpp:137-143 | a callback left over and the one of the present round can both look at the mark before either sets it, and both go on to cancelEvent |
| `Timeouts.ReturnsBeforeCancel` | myhttp/hook.cpp:137-168 | a call can return ETIMEDOUT with the cancelEvent of its callback still to come |
| `Timeouts.ReturnsUnderHold` | myhttp/timer.cpp:136-142 | a call can return without a timeout while its callback has the timer_info in hand and has not looked at the mark |
| `Timeouts.ReturnsWhileKept` | myhttp/hook.cpp:116-137 | a call of several rounds returns while a callback of an earlier round keeps the timer_info, and the timer of a later round that was only collected by then still acts |
| `Timeouts.LateCancelHitsNextCall` | myhttp/hook.cpp:286-297 | every timer that LeftoverActsIff says still acts can wake another call that blocks in the place of the one that returned, though nothing is ready: do_io tries again, connect_with_timeout goes on as if connected |
| `HookCalls.OthersOnlyWake` | myhttp/hook.cpp:161 | while a call holds, nobody else changes it but by marking and waking it |
| `HookCalls.Hook.DoIo` | myhttp/hook.cpp:90-176 | the retry loop is a run of the protocol for any answers of the system call and any steps of others; on return the call is over, waits nowhere and has no timer in the set; ETIMEDOUT only with a timeout and a mark; a value only if the system call gave it |
| `HookCalls.Hook.ConnectWithTimeout` | myhttp/hook.cpp:253-330 | the same with one call of connect, whose answer is the result unless it is EINPROGRESS, EINTR included; after a wake-up, and after a refused registration too, the result is the socket's error, -1 if getsockopt fails |
| `HookCalls.Hook.Wait` | myhttp/hook.cpp:127-172 | one round: arm, register, hold, take the timer back, decide by the mark |

## Left out

- ByteArrays.ByteArray.constructor: the other methods are about arrays of a block size above 0; with 0, which the source does not reject, they divide by zero.
- TimerRuns.OneShotEndsOnce: it follows one timer, so its runs do not give the address to another; so do those of TimerRuns.DeadlineStays and TimerRuns.RecurringSpacing.
- TimerRuns.NoLostShortening: a timer refreshed with an older reading of the clock than one already seen is excluded, because the source's promise rests on a clock that does not run back.
- Leaving.YesIsRightIff: the lowering of m_tickled by the read of the timers is left to TimerRuns.
- Readiness.AddSpec: lookup and growth are one step here and in the runs, so the table never shrinks in them (Readiness.LateGrowthIff is about the case that others come in between); negative descriptors and callers without a scheduler are excluded.
- RuntimeRuns.RunGood: a call that fails the readiness table's own assertions ends the program and is no step; Readiness.AddSpec and Readiness.DispatchSpec say exactly when.
- RuntimeRuns.NobodyIsForgotten: fibers that hold without arranging to be woken, or whose event somebody deletes, are in the other theorems but can be lost, as in the source.
- HookCalls.Hook.DoIo: the rounds are a finite list, so a call that is retried for ever is seen only as one that has not returned; the direct paths for unhooked threads, unknown, closed, non-socket and user-nonblocking descriptors, where the system call is made as it is, are not modelled.
- HookRuns.EachRegistrationWakesOnce: delEvent on a waiting call's event is excluded; nothing in the repository calls it.
- The varint loops' `|=` is modelled as `+`; Codecs.OrAddsDisjointBits justifies it. Negating the least int32 and doubling an int are taken as two's complement wrap-around.
- Timer milliseconds are unbounded naturals, except in the rollover test, where the wrap decides.
- A drain is one section in the source; in Runtime it takes one timer per step, in any order, so its runs are those of the source and more.
- The states written just before a context switch and the window in which another worker could see them: a yield and the worker's book-keeping up to its next lock are one step.
- IOManager::tickle, the pipe and epoll_wait's timeout: wake-ups are stated at onTimerInsertedAtFront.
- Removal of a closed descriptor from the kernel's interest list while its context is still armed.
- readDouble and readStringVint, which do not mirror their writers, and float and double bit copies.
- writeToFile, readFromFile, toHexString, logging, configuration, HTTP, servers, address handling, the descriptor manager and the connection pool.
