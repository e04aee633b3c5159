# xupeng, modelled and proved

xupeng is a runtime for coroutine I/O. This project models its four stateful parts and one printer, and proves what they promise.

- **Byte array** (`Bytes`, `Arith`, `FlatBytes`, `ByteArrays`). A chain of equally sized heap nodes with one cursor. It is proved to behave like one flat block of memory with a position, for every node size, over every list of operations. Scatter/gather lists and the file chunk loops are tied to the same flat form.
- **Codecs and records** (`Bits`, `Varint`, `Zigzag`, `Endian` in `Codec.dfy`; `Records`). Fixed-width integers in either byte order, base-128 integers, zigzag and length-prefixed strings. Every stored byte and every loaded number is given by weights, for any bytes and on any host. Single values round trip exactly on the domain given by `InDomain`. Lists of values round trip through the real chain of nodes.
- **Timers** (`TimerSpec`, `TimerRuns`, `Timers`). A queue in the order of (deadline, address), bulk expiry, clock rollover and the wake-up flag.
- **Event table** (`EventSpec`, `EventRuns`, `IOManagers`). Armed bits, continuations, the pending count and the kernel's interest set.
- **Scheduler and fibers** (`SchedulerSpec`, `SchedulerRuns`, `FiberLives`, `Schedulers`). Any number of workers that scan, resume, decrement, requeue, idle and leave, in every interleaving; the life of a fiber through them and the order of service.
- **The whole I/O manager** (`Waiters`, `IoEvents`, `IoWakeups`). The event table joined with the scheduler. Fibers that wait by adding an event for themselves and yielding to hold meet the scheduler's rules by themselves, and every continuation that the table hands out is taken by a worker in the end.
- **The end of an I/O manager** (`IoShutdown`, `IoStranded`). The scheduler together with the armed events and the two reads of `stopping`, up to the point where all workers have left.
- **IPv6 text** (`Ipv6`). The printing loop, checked against a parser for the text form of section 2.2 of RFC 4291.

Timers, events and the scheduler each have two layers. A value-level step function says what one critical section does, and lemmas about runs are proved of it. For timers and events a heap class with the source's fields and loops is proved to take exactly those steps, and its contracts also say outright what became of each timer, event and continuation. For the scheduler the class holds what runs under its lock: the scan, the enqueue and the test for the end. Its other steps stay in the state machine, and a new object of the class starts in the state from which the run theorems hold.

## Exact conditions

Some properties hold only on a part of the inputs. For these the model keeps the code as it is and the exact condition is proved.

- `writeToFile` writes the unread bytes if and only if there are none, or the position is at the start of a node, or at least one node size of bytes is unread (`WriteToFile`). Otherwise a chunk gets a negative length or no node.
- A record list that ends with an empty string and exactly fills its last node crashes when read back; every other list in the domain round trips (`RecordRoundTrip`). An empty read asks the null node at capacity for its size.
- A 64-bit signed variable-length integer round trips if and only if it fits 32 bits, because its zigzag encoder returns a 32-bit word (`Zigzag.RoundTrip64`).
- A string round trips if and only if its length fits the length prefix (`StringRoundTrip`).
- The dispatch of a report fails the assertion of `triggerEvent` if and only if the kernel agrees, an armed event is reported, and an unarmed event is reported with it (`AfterDispatchKeeps`). `LateReportFails` gives the race.
- `contextResize` keeps the event table right if and only if nothing is armed at or beyond the new size and the size is at least 32 (`ResizeKeeps`). `addEvent` computes that size from a look at the table whose lock it has let go, so two calls can race: `StaleResizeLosesEvent` gives the run. A call whose look is not stale is right if and only if the event is not armed (`AddEventKeeps`).
- `refresh` never moves a deadline earlier if and only if clock plus period stays below 2^64 (`RefreshIsLater`). `WrapLosesWakeup` shows a wake-up that is lost otherwise.
- A clock that goes back is taken for a rollover if and only if it goes back by more than an hour, or the last reading was within the first hour of the clock (`RolloverIs`): there the subtraction wraps.
- A fiber that yields as READY while an entry for it is queued can be resumed before its context is saved (`EarlyReadyIsUnsafe`).
- A callback fiber that finishes while an entry for it is queued is kept by its worker for the next callback and can be run by another worker at the same time (`KeptFiberIsUnsafe`). Exclusion holds in every run in which neither happens.
- `IOManager::stopping` reads the count of armed events before it takes the scheduler's lock. When the last idle fiber of a manager ends, an event is armed or can still be armed afterwards, and no worker will wait for it, if and only if a READY fiber has been counted out and not yet been put back into the queue, or an event was armed behind that worker's read (`LeftBehind`). `ReadyFiberLeavesEvent` and `OldReadLeavesEvent` give a run for each, of two workers that both leave with an event armed; the second has no yield as READY. Without either, nothing is left behind (`NothingArmed`). So it is with one worker if no thread outside adds events (`SingleWorkerIsClean`), and with any number if no fiber yields as READY and no event is armed between a read and its check (`QuietRunsAreClean`).
- A task scheduled from outside after all workers left stays in the queue (`LateEntryStays`).

## Assumptions

- The clock, the kernel's refusal of a request, the addresses that the allocator returns and the host's byte order are parameters.
- A call's critical section is one step. The timer manager is called by one thread at a time: its write lock type takes the read lock (xupeng/mutex.h:131-134), so the lock alone would not give that.
- Deadlines wrap at 2^64, as the source's unsigned type does. In the zigzag encoders, negating the smallest signed integer and doubling a large one are taken to wrap. `ceil` on the quotient in `addCapacity` is taken as exact.
- The node size is at least one, a file descriptor is not negative, and `addEvent` is called on a thread that has a scheduler.
- `stop` sets its two flags in the order of the source. Tasks from outside come before both flags are set.
- A fiber has at most one outstanding entry, and none when it yields as READY or when it is a callback fiber that finishes. These are the rules in `MaySchedule` and `Enabled`; what happens without them is under "Exact conditions". Fibers that wait for events as the hooked system calls do (xupeng/hook.cc:140-149) need no such assumption: `WaitersAreSafe` and `ManagerRuns` prove the rules for them.

Where names and code differ, the model follows the code: the "vint" string functions use a fixed length of eight bytes (xupeng/bytearray.cc:160-163), and `EncodeZigzag64` returns 32 bits (xupeng/bytearray.cc:91).

## Model

| member | source | states |
|---|---|---|
| `FlatBytes.Grown` | xupeng/bytearray.cc:584-611 | at least the old capacity and what is needed, and less than one node more than needed if it grows |
| `FlatBytes.GrownWhole` | xupeng/bytearray.cc:592-607 | the growth is a whole number of nodes, and one node fewer would not do |
| `FlatBytes.GrownUnique` | xupeng/bytearray.cc:588-607 | enough nodes, and one fewer not enough, determine the new capacity |
| `FlatBytes.WroteIs` | xupeng/bytearray.cc:295-327 | a write leaves its bytes at the old position, the cursor behind them, the content ending there or where it did, and all other bytes as they were |
| `FlatBytes.WroteTwice` | xupeng/bytearray.cc:295-327 | two writes in a row have the flat effect of one write of the joined bytes |
| `FlatBytes.StepByContent` | xupeng/bytearray.cc:282-355 | one step inside the content answers and changes as a plain byte string with a position does |
| `FlatBytes.RunByContent` | xupeng/bytearray.cc:282-402 | over a whole run inside the content the answers are those of a plain byte string, so capacity, node size and stale bytes cannot be seen |
| `ByteArrays.ByteArray.constructor` | xupeng/bytearray.cc:24-26 | one node, nothing in it, cursor at the start |
| `ByteArrays.ByteArray.CursorInvariant` | xupeng/bytearray.cc:386-402 | capacity is node size times node count, position ≤ size ≤ capacity, the cursor is node position / node size and null exactly at capacity |
| `ByteArrays.ByteArray.AddCapacity` | xupeng/bytearray.cc:584-611 | grows by the fewest nodes that suffice, keeps all bytes and nodes, and repairs a null cursor |
| `ByteArrays.ByteArray.AppendNodes` | xupeng/bytearray.cc:594-607 | hangs that many fresh nodes at the end of the chain and returns the first of them |
| `ByteArrays.ByteArray.Fill` | xupeng/bytearray.cc:301-323 | the node-by-node copy loop overwrites exactly the flat bytes at the position |
| `ByteArrays.ByteArray.Write` | xupeng/bytearray.cc:295-327 | the flat effect of a write: these bytes at the position, everything else kept, size and capacity as required |
| `ByteArrays.ByteArray.CopyOut` | xupeng/bytearray.cc:333-354 | the copy loop gathers the flat bytes and ends at the node of the end position |
| `ByteArrays.ByteArray.Read` | xupeng/bytearray.cc:329-355 | the next bytes, or the range error, or the null node of an empty read at capacity |
| `ByteArrays.ByteArray.ToString` | xupeng/bytearray.cc:462-470 | all unread bytes, and nothing changes |
| `ByteArrays.ByteArray.FindNode` | xupeng/bytearray.cc:394-401 | the walk from the root ends at the node that holds the position |
| `ByteArrays.ByteArray.SetPosition` | xupeng/bytearray.cc:386-402 | moves the cursor up to the capacity and raises the size with it, else the range error |
| `ByteArrays.ByteArray.Clear` | xupeng/bytearray.cc:282-293 | back to one node, with nothing in it |
| `ByteArrays.ByteArray.Serve` | xupeng/bytearray.cc:282-402 | refinement: for every node size and every list of operations the answers and the end state are those of the flat form, and inside the content the answers are those of a plain byte string |
| `ByteArrays.ByteArray.GatherIsFlat` | xupeng/bytearray.cc:486-515 | slices that follow each other hold exactly the flat bytes they cover |
| `ByteArrays.ByteArray.Slices` | xupeng/bytearray.cc:494-513 | the slicing loop covers the wanted bytes with non-empty slices, each inside one node |
| `ByteArrays.ByteArray.GetReadBuffers` | xupeng/bytearray.cc:486-515 | the slices joined are the next min(len, unread) flat bytes |
| `ByteArrays.ByteArray.GetWriteBuffers` | xupeng/bytearray.cc:554-582 | room for the bytes and slices over exactly that room; content and cursor unchanged |
| `ByteArrays.ByteArray.Scatter` | xupeng/bytearray.cc:554-582 | filling the slices in order overwrites exactly the flat bytes they cover |
| `ByteArrays.ByteArray.WriteByBuffers` | xupeng/bytearray.cc:554-582 | filling write buffers and moving the cursor behind them has the flat effect of a write |
| `ByteArrays.ByteArray.ChunkExtent` | xupeng/bytearray.cc:419-421 | offset and length of the next chunk, and that one chunk does not change whether the loop gets through |
| `ByteArrays.ByteArray.WriteToFile` | xupeng/bytearray.cc:414-427 | the chunks joined are the unread bytes, if and only if the stated condition holds |
| `ByteArrays.ByteArray.ReadFromFile` | xupeng/bytearray.cc:440-445 | the chunked reads have the flat effect of one write of the file |
| `ByteArrays.FileRoundTrip` | tests/test_bytearray.cc:51-59 | saving and loading into a fresh array of any node size rebuilds the same unread bytes |
| `Varint.EncodeLeast` | xupeng/bytearray.cc:107-116 | the encoding has n bytes exactly for the least n ≥ 1 with value < 128^n |
| `Varint.EncodeAt` | xupeng/bytearray.cc:107-131 | byte i holds (value / 128^i) mod 128, and its top bit is set exactly if it is not the last |
| `Varint.EncodeFits` | xupeng/bytearray.cc:108-130 | at most 5 and 10 bytes for 32 and 64 bits |
| `Varint.RoundTrip` | xupeng/bytearray.cc:206-234 | the reader returns the value and consumes exactly its bytes, whatever follows |
| `Varint.DecodeAny` | xupeng/bytearray.cc:206-234 | on any bytes, not only encodings: the value is the base-128 number up to the first byte without the top bit or the end of the word, modulo the word |
| `Varint.DecodeShort` | xupeng/bytearray.cc:206-234 | the bytes run out if and only if all of them say that more follow and the word has room for more |
| `Zigzag.DecodeIs` | xupeng/bytearray.cc:99-101 | the shift and exclusive-or of the decoder, as arithmetic |
| `Zigzag.RoundTrip32` | xupeng/bytearray.cc:83-99 | every 32-bit integer comes back, the smallest one too |
| `Zigzag.RoundTrip64` | xupeng/bytearray.cc:91-101 | a 64-bit integer comes back if and only if it fits 32 bits |
| `Endian.SwapTwice` | xupeng/endian.h:15-31 | a byte swap undoes itself, at every width |
| `Endian.PutIsHostFree` | xupeng/bytearray.cc:41-81 | the stored bytes are in the array's order, whatever the host's |
| `Endian.PutAt` | xupeng/bytearray.cc:41-81 | on every host: the byte of weight 256^i is (v / 256^i) mod 256, at place i in little and n − 1 − i in big order |
| `Endian.GetIsHostFree` | xupeng/bytearray.cc:181-200 | the loaded value depends on the bytes and the array's order only |
| `Endian.GetIsSum` | xupeng/bytearray.cc:181-200 | on every host: the loaded value is the sum of the bytes times their weights in the array's order |
| `Endian.RoundTrip` | xupeng/bytearray.cc:41-200 | written on a host of one byte order and read on a host of any |
| `Records.FixedRoundTrip` | xupeng/bytearray.cc:37-81 | every value of a fixed-width type comes back, signed or not |
| `Records.FixedBytes` | xupeng/bytearray.cc:37-81 | for every width, order and host, each byte that a fixed-width writer stores, as a quotient of the number modulo 256^w |
| `Records.FixedSum` | xupeng/bytearray.cc:169-200 | for any bytes, the result of a fixed-width reader: the number of its type that equals the weighted sum modulo 256^w |
| `Records.StringRoundTrip` | xupeng/bytearray.cc:145-163 | a string comes back if and only if its length fits the prefix |
| `Records.PrefixBytes` | xupeng/bytearray.cc:145-163 | each byte of the length prefix in the same way, and the string behind it |
| `Records.PrefixSum` | xupeng/bytearray.cc:250-280 | for any bytes: as many as the prefix's sum says are the string, or there are too few |
| `Records.VarBytes` | xupeng/bytearray.cc:83-131 | each byte of a variable-length number: of n, or of 2n or −2n − 1 cut to 32 bits |
| `Records.ValueRoundTrip` | xupeng/bytearray.cc:37-280 | any typed value comes back with exactly its bytes consumed, if and only if it is in the codec's domain |
| `Records.EncodeVarint` | xupeng/bytearray.cc:107-131 | the scratch-array loop yields the encoding and stays inside the array |
| `Records.WriteValue` | xupeng/bytearray.cc:37-167 | the flat effect of writing the value's encoding; directly: the bytes in memory are the number modulo 256^w, or the length and the string, in the given order of bytes |
| `Records.ReadFixed` | xupeng/bytearray.cc:169-200 | the value of the next bytes and a cursor behind them, or the range error |
| `Records.ReadVarint` | xupeng/bytearray.cc:206-234 | the reading loop decodes the unread bytes and moves the cursor behind what it used; on the range error it has used them all |
| `Records.ReadString` | xupeng/bytearray.cc:250-280 | the string, the range error, or the null node when it is empty and ends at capacity, and where the cursor is after each |
| `Records.ReadValue` | xupeng/bytearray.cc:169-280 | decodes the unread bytes and moves the cursor behind them; directly: a fixed-width result is the number of its type with the sum of the bytes, a string is as long as the sum of its prefix; after an error the cursor is where the reader gave up |
| `Records.WriteRecords` | tests/test_bytearray.cc:14-16 | writing a list has the flat effect of writing the joined encodings |
| `Records.ReadRecords` | tests/test_bytearray.cc:18-24 | reading with the same types gives the list back up to the end of the content |
| `Records.RecordRoundTrip` | tests/test_bytearray.cc:13-24 | write, go to the start, read: the same list and nothing unread, for every node size and byte order, with the exact exception |
| `Records.FreshCapacity` | xupeng/bytearray.cc:592-593 | a fresh array ends up full exactly when the content is a positive multiple of the node size |
| `TimerRuns.PutKeepsOrder` | xupeng/timer.cc:6-24 | insertion keeps the order of (deadline, address) and one timer for one address |
| `TimerRuns.ExpireSplit` | xupeng/timer.cc:149-171 | without rollover exactly the timers with deadline ≤ now leave, in order; exactly the later ones and the recurring ones at now + period remain |
| `TimerRuns.ExpireRollover` | xupeng/timer.cc:149-171 | with rollover every timer leaves and exactly the recurring ones come back |
| `TimerRuns.FiredGoesBack` | xupeng/timer.cc:163-171 | of a timer that was handed out the queue has the record at now + period if it is recurring, and none if not |
| `TimerRuns.RolloverIs` | xupeng/timer.cc:187-195 | what counts as a rollover: more than an hour back, or any step back in the first hour of the clock |
| `TimerRuns.LastLook` | xupeng/timer.cc:149-195 | in every run the time that a rollover is measured from is the clock of the last expiry of a queue that was not empty, or the first clock |
| `TimerRuns.InsertWakes` | xupeng/timer.cc:174-185 | the flag is set if and only if it was set or the new timer is now the first, and the hook is called if and only if that timer is the first and the flag was not set; so it is called whenever the minimum moves earlier |
| `TimerRuns.AddPuts` | xupeng/timer.cc:27-34 | exactly the new timer, at now + period with its callback and its kind, joins the queue |
| `TimerRuns.CancelTakes` | xupeng/timer.cc:40-49 | exactly the timer of that address leaves; flag, hook and clock are untouched |
| `TimerRuns.RefreshMoves` | xupeng/timer.cc:51-64 | exactly that timer changes, to the deadline now + period; flag and hook are untouched |
| `TimerRuns.ResetMoves` | xupeng/timer.cc:66-90 | exactly that timer changes, to the new period and the deadline now + period, or old deadline − old period + period; hook and flag as for a new timer |
| `TimerRuns.ResetStays` | xupeng/timer.cc:66-79 | a reset to the same period without from-now, or of a timer without a callback in the queue, changes nothing |
| `TimerRuns.RefreshKeeps` | xupeng/timer.cc:51-64 | a refresh keeps the invariant and never moves the minimum earlier, so it may skip the hook |
| `TimerRuns.ResetKeeps` | xupeng/timer.cc:66-90 | a reset keeps the invariant |
| `TimerRuns.ExpireKeeps` | xupeng/timer.cc:136-172 | expiry detects no rollover under a clock that does not go back, keeps the invariant and never moves the minimum earlier |
| `TimerRuns.StepKeeps` | xupeng/timer.cc:40-195 | every operation keeps the invariant |
| `TimerRuns.NoLostWakeup` | xupeng/timer.cc:120-185 | in every run, if the earliest deadline is before the one seen at the last `getNextTimer`, the flag is set and the hook was called exactly once since |
| `TimerRuns.StepLive` | xupeng/timer.cc:40-172 | no operation puts a timer without a callback into the queue, whatever the clock does |
| `TimerRuns.QueuedIsLive` | xupeng/timer.cc:40-172 | in every run a queued timer has a callback, if each was added with one |
| `Timers.TimerManager.LiveIs` | xupeng/timer.cc:40-90 | for the object: every timer is in the set if and only if it has a callback, exactly when every queued record has one; all methods keep this, `AddTimer` for a non-empty callback |
| `TimerRuns.NeverEarly` | xupeng/timer.cc:136-195 | in every run no callback is handed out before its deadline, nor within a period of its last firing unless it was added again or reset |
| `TimerRuns.GoneStaysGone` | xupeng/timer.cc:40-90 | a timer that left the queue is never handed out in any later run |
| `TimerRuns.OneShotOnce` | xupeng/timer.cc:163-171 | a one-shot timer is handed out at most once |
| `TimerRuns.CancelledNeverFires` | xupeng/timer.cc:40-49 | a timer is never handed out after its cancel |
| `TimerRuns.RefreshIsLater` | xupeng/timer.cc:60-62 | the new deadline is not earlier if and only if the sum does not wrap |
| `TimerRuns.WrapLosesWakeup` | xupeng/timer.cc:51-64 | the concrete run with a wrap in which the minimum moves earlier and nobody is told |
| `Timers.TimerManager.constructor` | xupeng/timer.cc:92-94 | an empty queue and the current time |
| `Timers.TimerManager.FindTimer` | xupeng/timer.cc:44 | the search by the comparator finds a timer exactly if it is in the set |
| `Timers.TimerManager.InsertTimer` | xupeng/timer.cc:175 | insertion at the place that the comparator gives; the set grows by that timer |
| `Timers.TimerManager.AddTimer` | xupeng/timer.cc:99-105 | the new timer has the given kind, callback and period and the deadline now + period; exactly it joins the set; the flag is set and the hook called exactly if it is then the first; the step `Add` |
| `Timers.TimerManager.Cancel` | xupeng/timer.cc:40-49 | true exactly if the timer had a callback; then exactly it leaves the set and has no callback, else nothing changes; the step `Cancel` |
| `Timers.TimerManager.Refresh` | xupeng/timer.cc:51-64 | true exactly if the timer had a callback, and then its deadline is now + period; the set keeps its members; the step `Refresh` |
| `Timers.TimerManager.Reset` | xupeng/timer.cc:66-90 | the new period and deadline, from now or from where the old period began, with the hook for a new first timer; the early return for an unchanged period changes nothing; the step `Reset` |
| `Timers.TimerManager.GetNextTimer` | xupeng/timer.cc:120-134 | zero exactly if the first timer is due, else now plus the result is its deadline; all ones without a timer; the flag is cleared |
| `Timers.TimerManager.DueEnd` | xupeng/timer.cc:154-158 | whatever address the probe timer has, the search ends behind exactly the due timers |
| `Timers.TimerManager.HandOut` | xupeng/timer.cc:159-171 | the loop collects the callbacks in order and puts the recurring timers back |
| `Timers.TimerManager.ListExpired` | xupeng/timer.cc:136-172 | the callbacks, in order, of exactly the due timers, or of all after a rollover; the recurring ones among them are back at now + period, the others are out of the set without a callback, the rest is as it was; the step `Expire` |
| `EventRuns.TriggerKeeps` | xupeng/iomanager.cc:80-97 | an armed event triggers without a failing assertion; exactly its continuation is added to the scheduled ones and no other descriptor changes |
| `EventRuns.RequestFits` | xupeng/iomanager.cc:212-218 | while the interest set mirrors the bits, the kernel refuses a MOD or DEL only on its own account |
| `EventRuns.AddFits` | xupeng/iomanager.cc:168-173 | the same for the ADD or MOD of a new event |
| `EventRuns.AddKeeps` | xupeng/iomanager.cc:160-196 | under the lock of the descriptor: no assertion fails if and only if the table reaches it and the event is not armed; the invariant is kept; unless the kernel refuses, exactly that event of that descriptor is now armed with that continuation |
| `EventRuns.DelKeeps` | xupeng/iomanager.cc:199-232 | keeps the invariant; exactly that event is disarmed and its continuation dropped if it was armed and the kernel agreed, else nothing changes |
| `EventRuns.CancelKeeps` | xupeng/iomanager.cc:234-265 | fails no assertion and keeps the invariant; exactly that event is disarmed and its continuation scheduled if it was armed and the kernel agreed, else nothing changes |
| `EventRuns.CancelAllKeeps` | xupeng/iomanager.cc:267-305 | fails no assertion, not the last one either, and keeps the invariant; exactly the continuations of the armed events are scheduled, else nothing changes |
| `EventRuns.AfterDispatchKeeps` | xupeng/iomanager.cc:393-420 | fails no assertion if and only if the kernel refuses, nothing armed is reported, or all that is reported is armed; keeps the invariant; exactly the continuations of the reported events are scheduled, else nothing changes |
| `EventRuns.DispatchKeeps` | xupeng/iomanager.cc:380-420 | for a whole report: fails no assertion if and only if it is legal; exactly the armed events that are reported are woken, and all armed ones after an error or a hang-up; a late report on a context that was cut off is passed over |
| `EventRuns.ReportWakes` | xupeng/iomanager.cc:382-415 | after an error or a hang-up with the report inside the armed events nothing is armed, the count falls by the number of armed bits and whatever waited there is scheduled once more; without, exactly the reported events go; for each continuation |
| `EventRuns.CancelUndoesAdd` | xupeng/iomanager.cc:160-265 | adding an event and cancelling it gives back the same state, but for that continuation, which was added and scheduled |
| `EventRuns.ReportUndoesAdd` | xupeng/iomanager.cc:160-420 | so does adding it and the report of just that event |
| `EventRuns.DelUndoesAdd` | xupeng/iomanager.cc:160-232 | adding and deleting gives back the same state, but for that continuation, which was added and dropped |
| `EventRuns.StepKeeps` | xupeng/iomanager.cc:136-420 | an operation meets its assertions and keeps the invariant if and only if it is legal |
| `EventRuns.TableInvariant` | xupeng/iomanager.cc:136-421 | over every run: the invariant holds after each call if and only if the run is legal; pending count = armed bits, contexts full exactly for armed bits, interest set = armed masks, continuations conserved |
| `EventRuns.ScheduledOnce` | xupeng/iomanager.cc:80-97 | over every run: scheduled = added − dropped − still armed, for each continuation |
| `EventRuns.LateReportFails` | xupeng/iomanager.cc:393-420 | from every good state with both events armed: cancel one, then dispatch a report of both, and the assertion fails |
| `EventRuns.ResizeKeeps` | xupeng/iomanager.cc:136-145 | a resize keeps the whole invariant if and only if the size is at least 32 and nothing is armed at or beyond it |
| `EventRuns.AddEventKeeps` | xupeng/iomanager.cc:147-158 | with a look at the table that is not stale, both steps of the call are legal if and only if the event is not armed |
| `EventRuns.StaleResizeLosesEvent` | xupeng/iomanager.cc:149-157 | the race of two calls on a fresh table: one armed event is gone from the table but not from the count and the kernel |
| `IOManagers.IOManager.constructor` | xupeng/iomanager.cc:118 | thirty-two unused contexts |
| `IOManagers.IOManager.ContextResize` | xupeng/iomanager.cc:136-145 | exactly that many contexts: the old objects up to the size, new unused ones behind |
| `IOManagers.IOManager.TriggerEvent` | xupeng/iomanager.cc:80-97 | the step `Trigger` on the heap; its continuation is the next one scheduled |
| `IOManagers.IOManager.AddEvent` | xupeng/iomanager.cc:147-197 | zero exactly if the kernel agreed, and then the continuation waits for that event and the count is one more; the table has fd × 3 / 2 contexts if the size seen, which may be stale, did not reach fd; keeps the invariant |
| `IOManagers.IOManager.DelEvent` | xupeng/iomanager.cc:199-232 | true exactly if the event was armed and the kernel agreed; then exactly that event is disarmed, its continuation dropped and nothing scheduled; keeps the invariant |
| `IOManagers.IOManager.CancelEvent` | xupeng/iomanager.cc:234-265 | true exactly if the event was armed and the kernel agreed; then exactly that event is disarmed and what waited for it is the next one scheduled; keeps the invariant |
| `IOManagers.IOManager.CancelAll` | xupeng/iomanager.cc:267-305 | true exactly if something was armed and the kernel agreed; then the context is unused, the count falls by the armed bits, and the reader and then the writer are scheduled; keeps the invariant |
| `IOManagers.IOManager.DispatchReport` | xupeng/iomanager.cc:380-420 | after a legal report with an error or a hang-up nothing is armed, else the armed events less the reported ones; the count falls accordingly and the reader and then the writer among the woken are scheduled; nothing changes if the kernel refuses; keeps the invariant |
| `IOManagers.IOManager.DispatchAll` | xupeng/iomanager.cc:371-421 | the loop over the reports of one wait is the run of their steps and keeps the invariant; wake-up reports change nothing |
| `FiberLives.ScanTakes` | xupeng/scheduler.cc:143-165 | the scan takes the first entry that is bound to no other thread and whose fiber is not executing; all before it are bound elsewhere or executing; if there is none it takes nothing |
| `FiberLives.QueueMoves` | xupeng/scheduler.h:137-144 | a new entry goes to the end of the queue, a scan takes out at most one, and no other step touches it |
| `FiberLives.FirstComeFirstServed` | xupeng/scheduler.cc:143-165 | in every run two queued entries, the first unbound, stay queued in this order until a scan takes the first; one may take the second before only while the fiber of the first executes |
| `FiberLives.ResumeRuns` | xupeng/scheduler.cc:171-190 | a live fiber in hand executes on its worker, a dead one is dropped and counted out, a callback executes on the kept fiber or a new one |
| `FiberLives.OwnStateSet` | xupeng/fiber.cc:157-200 | yielding as READY and finishing, well or by an exception, set exactly that state of exactly that fiber |
| `FiberLives.ComesBack` | xupeng/scheduler.cc:174-201 | a fiber that came back READY goes to the end of the queue for any thread, an executing one is put on hold, a finished one is left or kept for the next callback |
| `FiberLives.Lifecycle` | xupeng/fiber.h:23-36 | every step moves every fiber along the state diagram, by the step that its edge belongs to, or not at all |
| `FiberLives.ReadyRunsAgain` | xupeng/scheduler.cc:171-201 | in every run a READY fiber is with its worker, in hand or queued for any thread; once all workers have left no fiber is READY or executing |
| `SchedulerRuns.EnqueueKeeps` | xupeng/scheduler.h:137-144 | scheduling a fiber without an outstanding entry keeps fibers, counters and queue in order |
| `SchedulerRuns.TakeKeeps` | xupeng/scheduler.cc:147-163 | taking an eligible entry keeps them in order: its fiber is on nobody's stack unless it is dead |
| `SchedulerRuns.ResumeKeeps` | xupeng/scheduler.cc:171-190 | a resume meets the assertions of `swapIn` and `reset` and keeps them in order |
| `SchedulerRuns.RunningKeeps` | xupeng/fiber.cc:157-200 | yielding, finishing and swapping out keep them in order |
| `SchedulerRuns.SettleKeeps` | xupeng/scheduler.cc:176-201 | requeue, hold and keeping the callback fiber keep them in order, on a saved context |
| `SchedulerRuns.StepOrderly` | xupeng/scheduler.cc:139-220 | every step is safe and keeps them in order |
| `SchedulerRuns.StepCounts` | xupeng/scheduler.cc:161-205 | every step keeps the active count equal to the workers between take and decrement, and no decrement underflows |
| `SchedulerRuns.StepConserves` | xupeng/scheduler.cc:143-165 | every step keeps scheduled = taken + queued, as multisets |
| `SchedulerRuns.SkippedIsElsewhere` | xupeng/scheduler.cc:153-157 | an unbound entry that a scan skips belongs to a fiber on another worker, which scans again |
| `SchedulerRuns.StepShutdown` | xupeng/scheduler.cc:225-236 | while an unbound entry is queued, no step leaves the scheduler without a worker that scans again |
| `SchedulerRuns.StepKeeps` | xupeng/scheduler.cc:139-220 | every step of every interleaving is safe and keeps the whole invariant |
| `SchedulerRuns.Exclusion` | xupeng/scheduler.cc:153-182 | in every run no fiber is on two workers' stacks, none is resumed while executing or before its context was saved, and the assertions hold |
| `SchedulerRuns.ActiveIsExact` | xupeng/scheduler.cc:143-205 | in every run the active count is exact |
| `SchedulerRuns.NothingLost` | xupeng/scheduler.cc:139-236 | in every run, once all workers have left, every unbound entry was taken as often as it was scheduled |
| `SchedulerRuns.StoppingIs` | xupeng/scheduler.cc:225-229 | when `stopping` says yes, every scheduled entry was taken and no worker has an entry or a running fiber in hand |
| `SchedulerRuns.EarlyReadyIsUnsafe` | xupeng/fiber.cc:157-162 | yielding as READY with an entry queued enables a resume of a context that is not saved, wherever the entry is in the queue |
| `SchedulerRuns.KeptFiberIsUnsafe` | xupeng/scheduler.cc:195-197 | a callback fiber that finishes with an entry queued can be run by another worker while its own worker keeps it |
| `SchedulerRuns.LateEntryStays` | xupeng/scheduler.cc:225-229 | an entry that comes after all workers left is never taken |
| `IoShutdown.StillStays` | xupeng/scheduler.cc:202-219 | once nothing is queued, in hand or on its way back and no idle fiber is left, it stays so in every step, and armed events stay armed |
| `IoShutdown.IoStepKeeps` | xupeng/iomanager.cc:319-341 | every step keeps: when no worker asks again, nothing moves and nothing is armed, provided the last idle fiber ended beside no READY fiber on its way back and with no event armed |
| `IoShutdown.NothingArmed` | xupeng/iomanager.cc:319-341 | in every clean run, once all workers have left, no event is armed and nothing is queued, bound entries included |
| `IoShutdown.SingleWorkerIsClean` | xupeng/iomanager.cc:319-322 | with one worker and no event armed from outside every run is clean, also with yields as READY |
| `IoShutdown.QuietRunsAreClean` | xupeng/iomanager.cc:319-322 | with any number of workers a run is clean if no fiber yields as READY and no event is armed between a read of the count and its check |
| `IoShutdown.LeftBehind` | xupeng/iomanager.cc:319-322 | when the last idle fiber ends, an event is then armed in some continuation of the run, and nobody will wait for it, if and only if a READY fiber is between its count and the queue or an event is armed behind the read of the count |
| `IoStranded.ReadyFiberLeavesEvent` | xupeng/scheduler.cc:171-182 | the run of two workers that both leave while an event is armed, because of a fiber that yields as READY |
| `IoStranded.OldReadLeavesEvent` | xupeng/iomanager.cc:319-322 | the run without a yield as READY, because each check acts on a count read before the event was armed |
| `Waiters.ArmedMayBeScheduled` | xupeng/hook.cc:140-149 | whenever its event is dispatched or cancelled, a fiber that added it for itself and then yields may be scheduled |
| `Waiters.DisciplinedIsEnabled` | xupeng/hook.cc:140-149 | the steps of such fibers meet every rule about outstanding entries |
| `Waiters.WaitersKeep` | xupeng/hook.cc:140-149 | every step keeps: a fiber has at most one armed event or entry, and only where it can do no harm |
| `Waiters.WaitersAreSafe` | xupeng/hook.cc:140-149 | in every run of such fibers on any number of workers: all rules are met, no fiber is on two stacks, and the scheduler's assertions hold |
| `IoEvents.CountIsArmed` | xupeng/iomanager.cc:319-322 | the pending count is zero if and only if no event is armed |
| `IoEvents.CallTogether` | xupeng/iomanager.cc:147-420 | every legal call on the table arms, schedules or drops exactly the continuations that the scheduler's side arms, queues or drops |
| `IoEvents.ManagerRuns` | xupeng/iomanager.cc:147-420 | in every run of the whole manager both sides agree on what is armed, waiting fibers may be scheduled, and the scheduler's rules are met |
| `IoWakeups.CallQueues` | xupeng/iomanager.cc:80-97 | every call on the table puts exactly the continuations that it hands out at the end of the scheduler's queue, in order, for any thread |
| `IoWakeups.CallHands` | xupeng/iomanager.cc:234-420 | these are exactly the continuations that the table counts as scheduled |
| `IoWakeups.WokenAreTaken` | xupeng/iomanager.cc:147-420 | in every run of the whole manager, once all workers have left, every continuation that the event table handed out was taken by a worker as often |
| `Schedulers.Scheduler.ScheduleBatch` | xupeng/scheduler.h:84-97 | the queue is the old one followed by the non-empty tasks of the batch in order, for any thread; the caller's slots are empty; one wake-up if the queue was empty |
| `Schedulers.BatchIs` | xupeng/scheduler.h:84-97 | a batch adds its tasks one by one: an empty one nothing, the others an entry for any thread |
| `Schedulers.Scheduler.FindEntry` | xupeng/scheduler.cc:145-164 | the scan loop stops at the first entry that is bound to no other thread and not that of an executing fiber, and notes whether it skipped one of another thread |
| `Schedulers.Scheduler.constructor` | xupeng/scheduler.cc:12-33 | the initial state of the run theorems |
| `Schedulers.Scheduler.TakeNext` | xupeng/scheduler.cc:143-165 | the entry taken is unbound or the worker's own and its fiber is not executing, all before it are bound elsewhere or executing; it is erased, the rest keeps its order, the count goes up; a wake-up is asked for exactly if an entry of another thread was skipped; the step `DoScan` |
| `Schedulers.Scheduler.IsStopping` | xupeng/scheduler.cc:225-229 | in a good state a yes means that every scheduled entry was taken and no worker has one in hand |
| `Ipv6.NumeralBack` | xupeng/address.cc:389 | a printed number reads back, in every base up to sixteen |
| `Ipv6.GroupAt` | xupeng/address.cc:376-389 | on a host of either order, the loaded word is zero exactly if the group is, and swapped it is the group |
| `Ipv6.PrintedReadsBack` | xupeng/address.cc:374-398 | the printed groups parse to the same eight groups |
| `Ipv6.OneDouble` | xupeng/address.cc:379-395 | the double colon occurs exactly once if a group is zero and never otherwise |
| `Ipv6.FirstRunLeftOut` | xupeng/address.cc:379-395 | the double colon stands for the first run of zero groups, the whole of it |
| `Ipv6.ShortNeat` | xupeng/address.cc:389 | lower-case digits, and no group with a zero in front |
| `Ipv6.PrintingIsInjective` | xupeng/address.cc:374-398 | different addresses print differently |
| `Ipv6.TextIsInjective` | xupeng/address.cc:374-398 | two socket addresses with the same text have the same groups and the same port |
| `Ipv6.InsertGroup` | xupeng/address.cc:379-390 | one turn of the loop keeps what has been written right |
| `Ipv6.Insert` | xupeng/address.cc:374-398 | on a host of either byte order: an opening bracket, a text that parses to the eight groups in network order with the double colon for the first run of zeros, the only closing bracket, a colon, and the port in base ten without a leading zero |

## Left out

- The http directory: it is not in the build list.
- Sockets, hooks and the descriptor manager: wrappers of system calls. "Add an event, then yield" enters the event table and the scheduler as their steps.
- Logging and configuration: streams, YAML and casts from libraries outside the repository.
- The positional `read` and the three-argument `getReadBuffers`: they use the cursor in place of the given position; the read is modelled as `toString` uses it.
- Network masks and the other address classes: short fixed-width bit work.
- `toHexString`, `hasTimer`, `dump`: easy members.
- Context switching, stacks, memory orders, real epoll and the wake-up pipe: a fiber is its state, its owner and whether its context is saved; Fiber's methods are steps of the scheduler's state machine instead of methods of a class, because each is split at the points where another thread can interfere.
- `run`, `idle` and `stop` of the scheduler: their loops are the steps of the state machine; only the parts under the lock are methods.
- Waking idle workers: the wake-up calls change nothing in the state machine; a worker in its idle fiber may go on at any time.
- The timeout cap of `IOManager::idle`, and waits of 2^31 ms and more, whose meaning the cast to `int` changes.
- `addConditionTimer`: its condition only decides what the callback does.
- SchedulerRuns.NothingLost: does not cover entries bound to a thread, because their worker may leave before they come.
- ByteArrays.ByteArray.Clear: does not model the deallocation of the other nodes.
- ByteArrays.ByteArray.WriteToFile: opening the file and errors of the stream are not modelled.
- Records.WriteValue: the byte order is an argument; the source keeps it in a field.
- Records.RecordRoundTrip: floating-point numbers enter as their bit patterns.
- Timers.TimerManager.ListExpired: the unlocked look at the empty set before the lock is not a separate step.
- IOManagers.IOManager.AddEvent: a context that a stale resize has cut off between the look at the table and the lock of the descriptor is out of reach in the model, and out of the table but still in memory in the source.
- IoShutdown.NothingArmed: timers that are still queued are not part of the state; a timer, like any reason of an override, may make `stopping` say no.
- SchedulerRuns.Exclusion: fibers are scheduled by the rules under "Assumptions", which the source does not check; for fibers that wait for events `Waiters.WaitersAreSafe` has no such rules.
- Waiters.WaitersAreSafe: the hooked sleeps, which schedule an existing fiber from a timer, are not among its fibers; a fiber waits for one event at a time.
- EventRuns.DispatchKeeps: a report on a context that a resize has cut off while it was armed is not followed; the table no longer holds that context.
- IoShutdown.LeftBehind: the read of the timers in `stopping` is not modelled; it is one more reason for it to say no.
