/**
 * The `Microkernel` object of mk.py: process list, mailboxes, named queues,
 * block cache and buffer, mount table with its four file dispatchers, and the
 * memory-block table, each a field that the methods update in place. Every
 * operation runs to completion as one atomic step.
 */
module Kernel {
  import opened Common
  import Processes
  import Messaging
  import opened BlockCache
  import Mounts
  import Memory
  import Filesystem
  import opened FilesystemDriver

  class Microkernel {
    var memory: Memory.Table
    var processList: seq<Processes.Pid>
    var messageQueues: Messaging.Boxes<string>
    var processQueues: Messaging.Boxes<Processes.Pid>
    /** The one driver every mount point refers to. */
    const fileSystemDriver: FileSystemDriver
    var mountPoints: Mounts.MountTable
    var cache: map<BlockKey, Block>
    var buffer: map<BlockKey, Block>

    /** The object invariant: no block is both cached and buffered. */
    ghost predicate Valid()
      reads this`cache, this`buffer
    {
      Disjoint(Blocks(cache, buffer))
    }

    function BlockState(): Blocks
      reads this`cache, this`buffer
    {
      Blocks(cache, buffer)
    }

    constructor ()
      ensures Valid()
      ensures memory == map[] && processList == [] && messageQueues == map[] && processQueues == map[]
      ensures mountPoints == {} && cache == map[] && buffer == map[]
      ensures fresh(fileSystemDriver) && fresh(fileSystemDriver.fileSystem)
      ensures fileSystemDriver.fileSystem.Abs() == Filesystem.Initial()
    {
      memory := map[];
      processList := [];
      messageQueues := map[];
      processQueues := map[];
      fileSystemDriver := new FileSystemDriver();
      mountPoints := {};
      cache := map[];
      buffer := map[];
    }

    // ---------------------------------------------------------------
    // Process list

    method AddProcess(pid: Processes.Pid) returns (ok: bool)
      modifies this`processList
      ensures Step(processList, ok) == Processes.Add(old(processList), pid)
    {
      processList := processList + [pid];
      ok := true;
    }

    method CheckProcess(pid: Processes.Pid) returns (listed: bool)
      ensures listed <==> exists i :: 0 <= i < |processList| && processList[i] == pid
    {
      listed := pid in processList;
    }

    /** `ok == false` is the `ValueError` of `list.remove` for an id that is not listed. */
    method StopProcess(pid: Processes.Pid) returns (ok: bool)
      modifies this`processList
      ensures Step(processList, ok) == Processes.Stop(old(processList), pid)
    {
      if pid in processList {
        var i := Processes.FirstIndex(processList, pid);
        processList := processList[..i] + processList[i + 1..];
        ok := true;
      } else {
        ok := false;
      }
    }

    // ---------------------------------------------------------------
    // Mailboxes and named queues

    method SendMessage(pid: Processes.Pid, message: Messaging.Message) returns (ok: bool)
      modifies this`processQueues
      ensures Step(processQueues, ok) == Messaging.Send(old(processQueues), pid, message)
    {
      if pid in processQueues {
        processQueues := processQueues[pid := processQueues[pid] + [message]];
        ok := true;
      } else {
        ok := false;
      }
    }

    method ReceiveMessage(pid: Processes.Pid) returns (m: Option<Messaging.Message>)
      modifies this`processQueues
      ensures Step(processQueues, m) == Messaging.Receive(old(processQueues), pid)
    {
      if pid in processQueues && |processQueues[pid]| > 0 {
        m := Some(processQueues[pid][0]);
        processQueues := processQueues[pid := processQueues[pid][1..]];
      } else {
        m := None;
      }
    }

    method CreateMessageQueue(name: string)
      modifies this`messageQueues
      ensures messageQueues == Messaging.CreateQueue(old(messageQueues), name)
    {
      messageQueues := messageQueues[name := []];
    }

    method SendMessageQueue(name: string, message: Messaging.Message) returns (ok: bool)
      modifies this`messageQueues
      ensures Step(messageQueues, ok) == Messaging.Send(old(messageQueues), name, message)
    {
      if name in messageQueues {
        messageQueues := messageQueues[name := messageQueues[name] + [message]];
        ok := true;
      } else {
        ok := false;
      }
    }

    method ReceiveMessageQueue(name: string) returns (m: Option<Messaging.Message>)
      modifies this`messageQueues
      ensures Step(messageQueues, m) == Messaging.Receive(old(messageQueues), name)
    {
      if name in messageQueues && |messageQueues[name]| > 0 {
        m := Some(messageQueues[name][0]);
        messageQueues := messageQueues[name := messageQueues[name][1..]];
      } else {
        m := None;
      }
    }

    // ---------------------------------------------------------------
    // Block cache and write buffer

    method ReadBlock(device: string, blockNum: int, reader: Reader) returns (r: Option<Block>)
      requires Valid()
      modifies this`cache, this`buffer
      ensures Valid()
      ensures Step(BlockState(), r) == Read(old(BlockState()), reader, BlockKey(device, blockNum))
    {
      var key := BlockKey(device, blockNum);
      if key in cache {
        return Some(cache[key]);
      }
      if key in buffer {
        var data := buffer[key];
        buffer := buffer - {key};
        cache := cache[key := data];
        return Some(data);
      }
      r := reader(device, blockNum);
      if r.Some? {
        cache := cache[key := r.value];
      }
    }

    method WriteBlock(device: string, blockNum: int, data: Block)
      requires Valid()
      modifies this`cache, this`buffer
      ensures Valid()
      ensures BlockState() == Write(old(BlockState()), BlockKey(device, blockNum), data)
    {
      var key := BlockKey(device, blockNum);
      if key in cache {
        cache := cache[key := data];
      } else if key in buffer {
        buffer := buffer[key := data];
      } else {
        buffer := buffer[key := data];
      }
    }

    /**
     * `flush_buffer`: hands every buffered block to the device writer (returned
     * here as `writes`), then empties the buffer; the cache is not touched.
     */
    method FlushBuffer() returns (writes: seq<DeviceWrite>)
      requires Valid()
      modifies this`buffer
      ensures Valid()
      ensures buffer == map[]
      ensures WritesExactly(writes, old(buffer))
    {
      var remaining := buffer.Keys;
      writes := [];
      while remaining != {}
        invariant remaining <= buffer.Keys
        invariant forall i :: 0 <= i < |writes| ==>
          writes[i].key in buffer && writes[i].key !in remaining && writes[i].data == buffer[writes[i].key]
        invariant forall i, j :: 0 <= i < j < |writes| ==> writes[i].key != writes[j].key
        invariant forall k :: k in buffer && k !in remaining ==>
          exists i :: 0 <= i < |writes| && writes[i].key == k
        decreases remaining
      {
        var k :| k in remaining;
        ghost var before := writes;
        writes := writes + [DeviceWrite(k, buffer[k])];
        remaining := remaining - {k};
        assert forall i :: 0 <= i < |before| ==> writes[i] == before[i];
        assert writes[|before|].key == k;
      }
      buffer := map[];
    }

    /**
     * `evict_cache`: removes one cached key of least score and leaves the buffer
     * alone. An empty cache (`min` of nothing) or a cached block shorter than two
     * bytes (the score lookup fails) raises, which changes nothing.
     */
    method EvictCache() returns (r: Eviction)
      requires Valid()
      modifies this`cache
      ensures Valid()
      ensures r.EmptyCache? <==> old(cache) == map[]
      ensures r.ShortBlock? <==> old(cache) != map[] && !AllScored(old(cache))
      ensures r.Evicted? ==> AllScored(old(cache)) && IsLeastScored(old(cache), r.key) && cache == old(cache) - {r.key}
      ensures !r.Evicted? ==> cache == old(cache)
    {
      if cache == map[] {
        return EmptyCache;
      }
      if exists k :: k in cache && |cache[k]| < 2 {
        return ShortBlock;
      }
      LeastScoredExists(cache);
      var k :| k in cache && IsLeastScored(cache, k);
      cache := cache - {k};
      r := Evicted(k);
    }

    // ---------------------------------------------------------------
    // Mount table and file dispatch

    /** The device name is not used: every mount point refers to the same driver. */
    method MountFileSystem(device: string, mountPoint: string) returns (ok: bool)
      modifies this`mountPoints
      ensures Step(mountPoints, ok) == Mounts.Mount(old(mountPoints), mountPoint)
    {
      if mountPoint in mountPoints {
        ok := false;
      } else {
        mountPoints := mountPoints + {mountPoint};
        ok := true;
      }
    }

    method UnmountFileSystem(mountPoint: string) returns (ok: bool)
      modifies this`mountPoints
      ensures Step(mountPoints, ok) == Mounts.Unmount(old(mountPoints), mountPoint)
    {
      if mountPoint in mountPoints {
        mountPoints := mountPoints - {mountPoint};
        ok := true;
      } else {
        ok := false;
      }
    }

    /** Both a refused route and a failed create come back as `None`, as in the source. */
    method CreateFile(path: string, size: int) returns (r: Option<Filesystem.File>)
      modifies fileSystemDriver.fileSystem
      ensures var fs := fileSystemDriver.fileSystem;
        match Mounts.Route(mountPoints, path)
        case None => r == None && fs.Abs() == old(fs.Abs())
        case Some(rest) => Step(fs.Abs(), r) == Filesystem.Create(old(fs.Abs()), rest, size)
    {
      if !(Mounts.Prefix <= path) {
        return None;
      }
      if Mounts.Prefix in mountPoints {
        r := fileSystemDriver.CreateFile(path[|Mounts.Prefix|..], size);
      } else {
        r := None;
      }
    }

    method DeleteFile(path: string) returns (r: Option<bool>)
      modifies fileSystemDriver.fileSystem
      ensures var fs := fileSystemDriver.fileSystem;
        match Mounts.Route(mountPoints, path)
        case None => r == None && fs.Abs() == old(fs.Abs())
        case Some(rest) => r.Some? && Step(fs.Abs(), r.value) == Filesystem.Delete(old(fs.Abs()), rest)
    {
      if !(Mounts.Prefix <= path) {
        return None;
      }
      if Mounts.Prefix in mountPoints {
        var ok := fileSystemDriver.DeleteFile(path[|Mounts.Prefix|..]);
        r := Some(ok);
      } else {
        r := None;
      }
    }

    /** Both a refused route and an unknown file come back as `None`, as in the source. */
    method ReadFile(path: string) returns (r: Option<Bytes>)
      ensures var fs := fileSystemDriver.fileSystem;
        match Mounts.Route(mountPoints, path)
        case None => r == None
        case Some(rest) => r == Filesystem.Read(fs.Abs(), rest)
    {
      if !(Mounts.Prefix <= path) {
        return None;
      }
      if Mounts.Prefix in mountPoints {
        r := fileSystemDriver.ReadFile(path[|Mounts.Prefix|..]);
      } else {
        r := None;
      }
    }

    method WriteFile(path: string, data: Bytes) returns (r: Option<bool>)
      modifies fileSystemDriver.fileSystem
      ensures var fs := fileSystemDriver.fileSystem;
        match Mounts.Route(mountPoints, path)
        case None => r == None && fs.Abs() == old(fs.Abs())
        case Some(rest) => r.Some? && Step(fs.Abs(), r.value) == Filesystem.Write(old(fs.Abs()), rest, data)
    {
      if !(Mounts.Prefix <= path) {
        return None;
      }
      if Mounts.Prefix in mountPoints {
        var ok := fileSystemDriver.WriteFile(path[|Mounts.Prefix|..], data);
        r := Some(ok);
      } else {
        r := None;
      }
    }

    // ---------------------------------------------------------------
    // Memory-block table

    /** No ceiling check and no process-registration check, as in the source. */
    method AllocateMemory(size: int, pid: Processes.Pid) returns (block: Memory.MemoryBlock)
      modifies this`memory
      ensures Step(memory, block) == Memory.Allocate(old(memory), size, pid)
    {
      block := Memory.MemoryBlock(|memory| + 1, size, true, pid);
      memory := memory[block.id := block];
    }

    method FreeMemory(id: int, pid: Processes.Pid) returns (ok: bool)
      modifies this`memory
      ensures Step(memory, ok) == Memory.Free(old(memory), id, pid)
    {
      if id in memory {
        if memory[id].processId == pid {
          memory := memory - {id};
          ok := true;
        } else {
          ok := false;
        }
      } else {
        ok := false;
      }
    }
  }

  /**
   * The scenario of a write followed by a read on a live kernel: the read
   * returns the written bytes without consulting the device reader.
   */
  method WriteThenReadBlock(k: Microkernel, device: string, blockNum: int, data: Block, reader: Reader)
      returns (r: Option<Block>)
    requires k.Valid()
    modifies k`cache, k`buffer
    ensures k.Valid()
    ensures r == Some(data)
  {
    k.WriteBlock(device, blockNum, data);
    r := k.ReadBlock(device, blockNum, reader);
    WriteThenRead(old(k.BlockState()), BlockKey(device, blockNum), data, reader);
  }

  /**
   * The mount scenario: with `"/mnt"` mounted on a fresh kernel, a created file
   * reads back what was written, deleting it restores the free space, and after
   * unmounting every file operation on `"/mnt/..."` is refused.
   */
  method MountScenario(data: Bytes) returns (k: Microkernel)
    ensures k.fileSystemDriver.fileSystem.Abs() == Filesystem.Initial()
    ensures k.mountPoints == {}
  {
    k := new Microkernel();
    var mounted := k.MountFileSystem("/dev/sda1", "/mnt");
    assert mounted;
    assert Mounts.Route(k.mountPoints, "/mnt/test.txt") == Some("/test.txt") by {
      assert "/mnt/test.txt"[..4] == Mounts.Prefix;
      assert "/mnt/test.txt"[4..] == "/test.txt";
    }
    var created := k.CreateFile("/mnt/test.txt", 10);
    assert created.Some?;
    var written := k.WriteFile("/mnt/test.txt", data);
    assert written == Some(true);
    var read := k.ReadFile("/mnt/test.txt");
    assert read == Some(data);
    var deleted := k.DeleteFile("/mnt/test.txt");
    assert deleted == Some(true);
    assert k.fileSystemDriver.fileSystem.files == map[];
    var unmounted := k.UnmountFileSystem("/mnt");
    assert unmounted;
    var again := k.ReadFile("/mnt/test.txt");
    assert again == None;
  }
}
