/**
 * The memory-block table of mk.py as written: `allocate_memory` has its
 * ceiling check commented out and derives a block's id from the size of
 * the table, and `free_memory` deletes a block only for its owner.
 */
module Memory {
  import opened Common

  /** The configured per-process ceiling; nothing in the allocator consults it. */
  const MaximumAllowedMemory: int := 100

  /** A block record `{"id", "size", "allocated", "process_id"}`. */
  datatype MemoryBlock = MemoryBlock(id: int, size: int, isAllocated: bool, processId: int)

  type Table = map<int, MemoryBlock>

  /**
   * `allocate_memory`: stores and returns a block with id `|t| + 1`, whatever the
   * size and whoever the owner; a live block that already has that id is replaced.
   */
  function Allocate(t: Table, size: int, pid: int): (r: Step<Table, MemoryBlock>)
    ensures r.out.id == |t| + 1 && r.out.size == size && r.out.isAllocated && r.out.processId == pid
    ensures r.state.Keys == t.Keys + {r.out.id}
    ensures r.state[r.out.id] == r.out
    ensures forall i :: i in t && i != r.out.id ==> r.state[i] == t[i]
  {
    var block := MemoryBlock(|t| + 1, size, true, pid);
    Step(t[block.id := block], block)
  }

  /** `free_memory`: deletes the block iff it exists and belongs to `pid`; otherwise nothing changes. */
  function Free(t: Table, id: int, pid: int): (r: Step<Table, bool>)
    ensures r.out <==> id in t && t[id].processId == pid
    ensures r.out ==> r.state.Keys == t.Keys - {id} && forall i :: i in r.state ==> r.state[i] == t[i]
    ensures !r.out ==> r.state == t
  {
    if id in t then
      if t[id].processId == pid then Step(t - {id}, true) else Step(t, false)
    else
      Step(t, false)
  }

  /** When the new id is unused, freeing the new block by its owner restores the table. */
  lemma AllocateThenFree(t: Table, size: int, pid: int)
    requires |t| + 1 !in t
    ensures var a := Allocate(t, size, pid);
      Free(a.state, a.out.id, pid) == Step(t, true)
  {
    var a := Allocate(t, size, pid);
    assert a.state - {a.out.id} == t;
  }

  /** No other process can free a block: the attempt fails and changes nothing. */
  lemma FreeByOtherOwnerFails(t: Table, id: int, pid: int)
    requires id in t && t[id].processId != pid
    ensures Free(t, id, pid) == Step(t, false)
  {
  }

  /** Alloc, alloc, free the first: the next allocation reuses id 2 and overwrites the live block. */
  lemma IdReuseOverwrites(p: int, q: int)
    requires p != q
    ensures var t1 := Allocate(map[], 10, p).state;
      var t2 := Allocate(t1, 20, q).state;
      var t3 := Free(t2, 1, p).state;
      var a := Allocate(t3, 30, p);
      && 2 in t3 && t3[2].processId == q
      && a.out.id == 2 && a.state == map[2 := MemoryBlock(2, 30, true, p)]
  {
    var t1 := Allocate(map[], 10, p).state;
    assert t1 == map[1 := MemoryBlock(1, 10, true, p)];
    var t2 := Allocate(t1, 20, q).state;
    assert t2 == map[1 := MemoryBlock(1, 10, true, p), 2 := MemoryBlock(2, 20, true, q)];
    var t3 := Free(t2, 1, p).state;
    assert t3 == map[2 := MemoryBlock(2, 20, true, q)];
  }

  /** The ceiling is not enforced: one process can hold more than 100 bytes. */
  lemma CeilingNotEnforced(pid: int)
    ensures var a := Allocate(map[], 1024, pid);
      a.out.size > MaximumAllowedMemory && a.state[a.out.id].processId == pid
  {
  }
}
