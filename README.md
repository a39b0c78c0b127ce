# microkernel-ultra in Dafny

A verified model of the bookkeeping core of a small simulated microkernel
written in Python. The `Microkernel` object keeps a process list, per-process
mailboxes, named message queues, a block cache with a separate write buffer
over abstract block devices, a mount table whose four file operations are
routed to one file-system driver, and a table of memory blocks owned by
processes. The driver forwards to an in-memory file store with a 1024-byte
free-space counter. A separate table of named counting semaphores is modelled
alongside.

Each component is a module of pure step functions over the component's
state, with lemmas about them. Most step functions return a `Step(state, out)`
pair. A few return only a new state (`BlockCache.Write`,
`Messaging.CreateQueue`) or only a result (`Filesystem.Read`, `Mounts.Route`).
The stateful objects (`Microkernel`, `FileSystem`, `FileSystemDriver`, `Sem`)
are classes whose fields the methods update in place. Most methods'
postconditions tie the result and the new field values to the step function
applied to the old values. `Kernel.Microkernel.CheckProcess`, `FlushBuffer`
and `EvictCache`, and the `ReadFile` methods, state their properties
directly.

| file | module | models |
|---|---|---|
| common.dfy | `Common` | `Option`, `Step`, bytes |
| filesystem.dfy | `Filesystem` | filesystem.py, class `FileSystem` |
| filesystem_driver.dfy | `FilesystemDriver` | filesystem_driver.py, class `FileSystemDriver` |
| sem.dfy | `Semaphores` | sem.py, class `Sem` |
| processes.dfy | `Processes` | the process list of mk.py |
| messaging.dfy | `Messaging` | mailboxes and named queues of mk.py |
| block_cache.dfy | `BlockCache` | cache, buffer, eviction score and flush of mk.py |
| mounts.dfy | `Mounts` | mount table and `/mnt` routing of mk.py |
| memory.dfy | `Memory` | the memory-block table of mk.py |
| kernel.dfy | `Kernel` | class `Microkernel` of mk.py |

The model follows the code as written. Where the system's design
documentation describes stronger behaviour, the code wins:
- there is no per-process memory ceiling;
- block ids are the size of the table plus one, so they are neither unique nor monotonic;
- a write to a cached block updates the cache in place;
- eviction uses the block's second byte as its score;
- routing only knows the prefix `"/mnt"`;
- re-creating a named queue silently empties it;
- flush reports nothing per key.

Two consequences are worth knowing:
- No operation of the core creates a mailbox, since `add_process` does not.
  From a fresh kernel, `send_message` therefore always returns false.
- The kernel's own device manager never registers a device. A cold cache miss
  therefore fails unless the reader given to `ReadBlock` says otherwise.

## Model

| member | source | states |
|---|---|---|
| `Filesystem.Create` | filesystem.py:6-14 | succeeds iff free space >= size; then the name maps to a new empty file, other names keep their files, free space drops by exactly size; otherwise nothing changes |
| `Filesystem.Delete` | filesystem.py:16-24 | true iff the name exists; then exactly that name is removed and its size is added back to free space; otherwise nothing changes |
| `Filesystem.Read` | filesystem.py:26-31 | the stored data of the file, `None` iff the name is unknown |
| `Filesystem.Write` | filesystem.py:33-39 | true iff the file exists; its data becomes the new data; names, sizes and free space are unchanged and the data length is not checked |
| `Filesystem.CreateFreshConserves` | filesystem.py:4-14 | creating a fresh name keeps free space + sum of sizes at 1024 |
| `Filesystem.CreateExistingLeaks` | filesystem.py:10-11 | creating over an existing name loses exactly the old file's size from the accounting |
| `Filesystem.DeleteConserves` | filesystem.py:16-24 | deleting keeps free space + sum of sizes at 1024 |
| `Filesystem.WriteConserves` | filesystem.py:33-39 | writing keeps free space + sum of sizes at 1024 |
| `Filesystem.RunConserves` | filesystem.py:4-39 | over any sequence of operations whose creates use fresh names, free space + sum of sizes stays 1024 |
| `Filesystem.InitialConserved` | filesystem.py:2-4 | the empty store with 1024 free bytes satisfies the conservation invariant |
| `Filesystem.RunStaysSane` | filesystem.py:8-11 | with non-negative requested sizes, free space and every stored size stay non-negative over any sequence of operations |
| `Filesystem.ReadAfterWrite` | filesystem.py:26-39 | a read after a write returns the written data, or `None` if the name was unknown |
| `Filesystem.ReadAfterCreate` | filesystem.py:9 | right after a successful create the file reads as empty |
| `Filesystem.CreateThenDelete` | filesystem.py:6-24 | creating a fresh file and deleting it restores the store exactly and returns true |
| `Filesystem.FileSystem.constructor` | filesystem.py:2-4 | a new store has no files and 1024 bytes free |
| `Filesystem.FileSystem.CreateFile` | filesystem.py:6-14 | result and new state are those of `Create` on the old state |
| `Filesystem.FileSystem.DeleteFile` | filesystem.py:16-24 | result and new state are those of `Delete` on the old state |
| `Filesystem.FileSystem.ReadFile` | filesystem.py:26-31 | returns the file's data, `None` iff the name is unknown; changes nothing |
| `Filesystem.FileSystem.WriteFile` | filesystem.py:33-39 | result and new state are those of `Write` on the old state |
| `FilesystemDriver.FileSystemDriver.constructor` | filesystem_driver.py:5-6 | the driver's only state is a fresh, empty store with 1024 bytes free |
| `FilesystemDriver.FileSystemDriver.CreateFile` | filesystem_driver.py:8-10 | same result and same effect on the wrapped store as `FileSystem.CreateFile` |
| `FilesystemDriver.FileSystemDriver.DeleteFile` | filesystem_driver.py:12-14 | same result and same effect as `FileSystem.DeleteFile` |
| `FilesystemDriver.FileSystemDriver.ReadFile` | filesystem_driver.py:16-18 | same result as `FileSystem.ReadFile`; changes nothing |
| `FilesystemDriver.FileSystemDriver.WriteFile` | filesystem_driver.py:20-22 | same result and same effect as `FileSystem.WriteFile` |
| `Semaphores.Acquire` | sem.py:5-14 | true iff the name exists with count > 0, and then exactly that count drops by 1; otherwise nothing changes; other names untouched |
| `Semaphores.Release` | sem.py:16-22 | true iff the name exists, and then its count rises by 1 with no bound; other names untouched |
| `Semaphores.Create` | sem.py:24-30 | true iff the name is new, and then it holds the initial count; an existing name keeps its count |
| `Semaphores.AcquireFailureIsNoOp` | sem.py:6-14 | a failed acquire leaves the table unchanged |
| `Semaphores.AcquireThenRelease` | sem.py:5-22 | a successful acquire followed by a release restores the table and returns true |
| `Semaphores.CountStaysNonNegative` | sem.py:5-30 | a semaphore with a non-negative count stays present and non-negative under any sequence of operations |
| `Semaphores.RunFramesOtherNames` | sem.py:5-30 | operations that never name a semaphore leave its presence and count unchanged |
| `Semaphores.Sem.constructor` | sem.py:2-3 | a new table is empty |
| `Semaphores.Sem.SemAcquire` | sem.py:5-14 | result and new table are those of `Acquire` |
| `Semaphores.Sem.SemRelease` | sem.py:16-22 | result and new table are those of `Release` |
| `Semaphores.Sem.SemCreate` | sem.py:24-30 | result and new table are those of `Create` |
| `Processes.FirstIndex` | mk.py:45 | the position of the first occurrence of the id, the entry `list.remove` deletes |
| `Processes.Add` | mk.py:31-35 | the id is appended at the end, even if already listed, and the result is true |
| `Processes.Stop` | mk.py:43-46 | true iff the id is listed; then exactly its first occurrence is removed and the order of the rest kept; otherwise (the `ValueError`) nothing changes |
| `Processes.AddThenStopFresh` | mk.py:31-46 | adding a fresh id and stopping it restores the list |
| `Processes.AddThenStopRestoresMembers` | mk.py:31-46 | adding and stopping any id restores the multiset of listed ids |
| `Messaging.Send` | mk.py:48-54 | true iff the key has a queue; the message is appended at its end; other queues untouched |
| `Messaging.Receive` | mk.py:56-64 | returns and removes the oldest message iff the key has a non-empty queue; otherwise `None` and no change |
| `Messaging.CreateQueue` | mk.py:214-216 | the name is bound to an empty queue, even if it already had one; other queues untouched |
| `Messaging.Fifo` | mk.py:48-64 | after sending a sequence of messages to a queue holding q, receiving as many times as there are messages yields q followed by the sent messages in order and leaves it empty |
| `Messaging.ReceiveFromEmpty` | mk.py:58-64 | receiving from an unknown or empty queue returns `None` and changes nothing |
| `Messaging.CreateQueueDiscards` | mk.py:216 | re-creating a queue discards the messages waiting in it |
| `BlockCache.Read` | mk.py:66-81 | cache hit: data returned, no change; buffer hit: entry moves from buffer to cache unchanged; miss: the device reader's result is returned and cached, a reader failure changes nothing; disjointness of cache and buffer is preserved |
| `BlockCache.Write` | mk.py:83-95 | a cached key is updated in the cache and the buffer is untouched; any other key is set in the buffer; disjointness is preserved |
| `BlockCache.WriteThenRead` | mk.py:66-95 | a write followed by a read of the same key returns the written data for every device reader, whatever was cached or buffered |
| `BlockCache.ReadTwice` | mk.py:69-70 | after a successful read, reading the key again returns the same data and changes nothing |
| `BlockCache.ReadOfBufferedPromotes` | mk.py:73-76 | reading a buffered block moves it out of the buffer into the cache, unwritten, and no flush of the new buffer hands that key to the writer |
| `BlockCache.LeastScoredExists` | mk.py:121 | a non-empty cache of blocks with at least two bytes has a key of least score |
| `Mounts.Mount` | mk.py:97-103 | true iff the point was absent; the table afterwards is the old one plus the point |
| `Mounts.Unmount` | mk.py:105-111 | true iff the point was present; exactly that point is removed |
| `Mounts.Route` | mk.py:124-135 | a path is forwarded iff it starts with "/mnt" and "/mnt" is mounted, and "/mnt" followed by the forwarded path is the original path |
| `Mounts.UnmountStopsRouting` | mk.py:105-111 | after unmounting "/mnt" no path is routed |
| `Mounts.OtherPointsIgnored` | mk.py:126-130 | mounting any point other than "/mnt" does not change routing |
| `Mounts.PrefixIsTextual` | mk.py:126-132 | the prefix test is textual: "/mntx/a" is forwarded as "x/a" |
| `Memory.Allocate` | mk.py:175-185 | returns and stores the block whose id is the table's size plus one, the given size and owner, marked allocated, with no ceiling check; other ids keep their blocks |
| `Memory.Free` | mk.py:202-212 | true iff the id exists and its owner matches, and then exactly that id is deleted; otherwise nothing changes |
| `Memory.AllocateThenFree` | mk.py:175-212 | when the new id is unused, freeing the new block by its owner restores the table |
| `Memory.FreeByOtherOwnerFails` | mk.py:206-210 | a free by a process that does not own the block fails and changes nothing |
| `Memory.IdReuseOverwrites` | mk.py:180-184 | after two allocations by different processes and freeing the first, the next allocation reuses id 2 and overwrites the live block of the other process |
| `Memory.CeilingNotEnforced` | mk.py:177-178 | a single allocation of 1024 bytes succeeds though the ceiling is 100 |
| `Kernel.Microkernel.constructor` | mk.py:10-23 | every table is empty, the cache and buffer are disjoint, and the driver and its store are fresh with 1024 bytes free |
| `Kernel.Microkernel.AddProcess` | mk.py:31-35 | result and new list are those of `Processes.Add` |
| `Kernel.Microkernel.CheckProcess` | mk.py:37-41 | true iff the id occurs in the process list |
| `Kernel.Microkernel.StopProcess` | mk.py:43-46 | result and new list are those of `Processes.Stop` |
| `Kernel.Microkernel.SendMessage` | mk.py:48-54 | result and new mailboxes are those of `Messaging.Send` |
| `Kernel.Microkernel.ReceiveMessage` | mk.py:56-64 | result and new mailboxes are those of `Messaging.Receive` |
| `Kernel.Microkernel.CreateMessageQueue` | mk.py:214-216 | the new queues are those of `Messaging.CreateQueue` |
| `Kernel.Microkernel.SendMessageQueue` | mk.py:218-226 | result and new queues are those of `Messaging.Send` |
| `Kernel.Microkernel.ReceiveMessageQueue` | mk.py:228-239 | result and new queues are those of `Messaging.Receive` |
| `Kernel.Microkernel.ReadBlock` | mk.py:66-81 | keeps cache and buffer disjoint; result and new maps are those of `BlockCache.Read` |
| `Kernel.Microkernel.WriteBlock` | mk.py:83-95 | keeps cache and buffer disjoint; new maps are those of `BlockCache.Write` |
| `Kernel.Microkernel.FlushBuffer` | mk.py:113-117 | every buffered block is handed to the writer exactly once with its data; the buffer ends empty; the cache is unchanged |
| `Kernel.Microkernel.EvictCache` | mk.py:119-122 | an empty cache or a short block raises and changes nothing; otherwise exactly one key of least score is removed; the buffer is unchanged |
| `Kernel.Microkernel.MountFileSystem` | mk.py:97-103 | result and new table are those of `Mounts.Mount`; the device is ignored |
| `Kernel.Microkernel.UnmountFileSystem` | mk.py:105-111 | result and new table are those of `Mounts.Unmount` |
| `Kernel.Microkernel.CreateFile` | mk.py:124-135 | `None` and no change unless routed; otherwise the driver's create on the stripped path, same result and effect |
| `Kernel.Microkernel.DeleteFile` | mk.py:137-146 | `None` and no change unless routed; otherwise the driver's delete on the stripped path |
| `Kernel.Microkernel.ReadFile` | mk.py:148-157 | `None` unless routed; otherwise the driver's read of the stripped path |
| `Kernel.Microkernel.WriteFile` | mk.py:159-170 | `None` and no change unless routed; otherwise the driver's write on the stripped path |
| `Kernel.Microkernel.AllocateMemory` | mk.py:175-185 | result and new table are those of `Memory.Allocate` |
| `Kernel.Microkernel.FreeMemory` | mk.py:202-212 | result and new table are those of `Memory.Free` |
| `Kernel.WriteThenReadBlock` | main.py:56-58 | on a kernel, a write then a read of the same block returns the written bytes whatever the device reader |
| `Kernel.MountScenario` | main.py:36-52 | mount "/mnt", create, write, read back, delete and unmount: the store ends as it started and the mount table empty |

## Left out

- Locking: the `Semaphore` objects in mk.py serialise threads. Every operation is modelled as one atomic step, and the lock itself is not modelled.
- `Kernel.Microkernel.StopProcess`: `true` stands for the normal `None` return of `stop_process`. `false` stands for the `ValueError` of `list.remove`. After that error the source never releases the registry lock taken at mk.py:44, so every later `add_process`, `check_process` and `stop_process` blocks forever. The model instead lets later registry operations proceed.
- `Processes.Stop`: same as `Kernel.Microkernel.StopProcess`; the lock left held after the `ValueError` is not modelled.
- The `lock` method of mk.py cannot be reached, because the instance attribute `lock` set at mk.py:20 hides it. The `unlock` method can be called: it releases the registry semaphore, and it is the only way to free the lock left held after a failed `stop_process`. It is not modelled, because the lock is not modelled.
- The debug `print` in `read_block` is left out.
- `device_manager.py` reads a real file. The reader is a function parameter of `ReadBlock`; its `None` result stands for the `ValueError` raised for an unregistered device.
- `flush_buffer` calls `write_to_device`, which the class never defines. The model hands the writes to an external writer and returns them, and does not model the resulting crash.
- `Kernel.Microkernel.FlushBuffer`: does not state the order of the writes, because dictionary iteration order is not modelled.
- `Kernel.Microkernel.EvictCache`: states only that some key of least score is removed, not Python's first-in-insertion-order tie-break, because dictionary insertion order is not modelled.
- `check_memory_violation` is not modelled. It iterates dictionary keys as if they were records, so it fails on any non-empty table, and nothing calls it. Only the constant `MaximumAllowedMemory` is kept.
- `Filesystem.Create`: returns the file record as a value snapshot. In the source, `create_file` returns the same dict it stores, so the caller's handle is live: it shows later `write_file` data, and writing to it changes the stored size.
- `Filesystem.FileSystem.CreateFile`: returns a snapshot, not the live stored dict, as for `Filesystem.Create`.
- `FilesystemDriver.FileSystemDriver.CreateFile`: returns a snapshot, not the live stored dict, as for `Filesystem.Create`.
- `Kernel.Microkernel.CreateFile`: returns a snapshot, not the live stored dict, as for `Filesystem.Create`.
- `Memory.Allocate`: returns the block record as a value snapshot. In the source, `allocate_memory` returns the same dict it stores, so a caller that changes its `process_id` or `size` changes the table, and with it the owner check of `free_memory`.
- `Kernel.Microkernel.AllocateMemory`: returns a snapshot, not the live stored dict, as for `Memory.Allocate`.
- `peak_memory` is a trivial getter and is not modelled.
- The unused kernel fields `semaphores`, `violation_handlers` and `memory_allocations` are not modelled. The field `device_manager` is not a field of the model: its only use, the `read_from_device` call at mk.py:79, is the `reader` parameter of `Kernel.Microkernel.ReadBlock`.
- Python's dynamic typing is not modelled. Sizes, ids and counts are unbounded integers; names, paths and messages are strings; file data and blocks are byte strings. The initial file data `""` becomes the empty byte string.
- The block record's `allocated` flag is the field `isAllocated`, because `allocated` is a reserved word in Dafny.
- main.py prints its results. Only its two scenarios are kept, as `Kernel.MountScenario` and `Kernel.WriteThenReadBlock`.
