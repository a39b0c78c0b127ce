/**
 * The named counting-semaphore table of sem.py. Each entry is a counter that
 * is decremented and incremented in place; nothing here blocks or waits.
 */
module Semaphores {
  import opened Common

  /** Name to current count; counts are unbounded Python ints. */
  type Table = map<string, int>

  /** `sem_acquire`: succeeds and decrements by one exactly when the name exists with a positive count. */
  function Acquire(t: Table, name: string): (r: Step<Table, bool>)
    ensures r.out <==> name in t && t[name] > 0
    ensures r.state.Keys == t.Keys
    ensures forall n :: n in t && n != name ==> r.state[n] == t[n]
    ensures name in t ==> r.state[name] == if r.out then t[name] - 1 else t[name]
  {
    if name in t && t[name] > 0 then Step(t[name := t[name] - 1], true) else Step(t, false)
  }

  /** `sem_release`: increments an existing counter by one, with no upper bound. */
  function Release(t: Table, name: string): (r: Step<Table, bool>)
    ensures r.out <==> name in t
    ensures r.state.Keys == t.Keys
    ensures forall n :: n in t && n != name ==> r.state[n] == t[n]
    ensures name in t ==> r.state[name] == t[name] + 1
  {
    if name in t then Step(t[name := t[name] + 1], true) else Step(t, false)
  }

  /** `sem_create`: adds a new name with its initial count; an existing name is left as it is. */
  function Create(t: Table, name: string, initialCount: int): (r: Step<Table, bool>)
    ensures r.out <==> name !in t
    ensures r.state.Keys == t.Keys + {name}
    ensures forall n :: n in t ==> r.state[n] == t[n]
    ensures r.out ==> r.state[name] == initialCount
  {
    if name in t then Step(t, false) else Step(t[name := initialCount], true)
  }

  /** A failed acquire changes nothing. */
  lemma AcquireFailureIsNoOp(t: Table, name: string)
    requires !Acquire(t, name).out
    ensures Acquire(t, name).state == t
  {
  }

  /** A successful acquire followed by a release restores the table exactly. */
  lemma AcquireThenRelease(t: Table, name: string)
    requires Acquire(t, name).out
    ensures Release(Acquire(t, name).state, name) == Step(t, true)
  {
    assert Acquire(t, name).state[name := t[name]] == t;
  }

  datatype SemOp =
    | AcquireOp(name: string)
    | ReleaseOp(name: string)
    | CreateOp(name: string, initialCount: int)

  function Apply(t: Table, op: SemOp): Table {
    match op
    case AcquireOp(n) => Acquire(t, n).state
    case ReleaseOp(n) => Release(t, n).state
    case CreateOp(n, c) => Create(t, n, c).state
  }

  function Run(t: Table, ops: seq<SemOp>): Table
    decreases |ops|
  {
    if ops == [] then t else Run(Apply(t, ops[0]), ops[1..])
  }

  /**
   * A semaphore whose count is non-negative stays present and non-negative
   * under any sequence of operations, whatever happens to the other names.
   */
  lemma {:induction false} CountStaysNonNegative(t: Table, name: string, ops: seq<SemOp>)
    requires name in t && t[name] >= 0
    ensures name in Run(t, ops) && Run(t, ops)[name] >= 0
    decreases |ops|
  {
    if ops != [] {
      CountStaysNonNegative(Apply(t, ops[0]), name, ops[1..]);
    }
  }

  /** Operations that never mention a name leave its entry as it was. */
  lemma {:induction false} RunFramesOtherNames(t: Table, name: string, ops: seq<SemOp>)
    requires forall i :: 0 <= i < |ops| ==> ops[i].name != name
    ensures name in Run(t, ops) <==> name in t
    ensures name in t ==> Run(t, ops)[name] == t[name]
    decreases |ops|
  {
    if ops != [] {
      assert ops[0].name != name;
      assert forall i :: 0 <= i < |ops[1..]| ==> ops[1..][i] == ops[i + 1];
      RunFramesOtherNames(Apply(t, ops[0]), name, ops[1..]);
    }
  }

  /** The `Sem` object, whose count table is changed in place. */
  class Sem {
    var semaphores: Table

    constructor ()
      ensures semaphores == map[]
    {
      semaphores := map[];
    }

    method SemAcquire(name: string) returns (ok: bool)
      modifies this
      ensures Step(semaphores, ok) == Acquire(old(semaphores), name)
    {
      if name in semaphores {
        if semaphores[name] > 0 {
          semaphores := semaphores[name := semaphores[name] - 1];
          ok := true;
        } else {
          ok := false;
        }
      } else {
        ok := false;
      }
    }

    method SemRelease(name: string) returns (ok: bool)
      modifies this
      ensures Step(semaphores, ok) == Release(old(semaphores), name)
    {
      if name in semaphores {
        semaphores := semaphores[name := semaphores[name] + 1];
        ok := true;
      } else {
        ok := false;
      }
    }

    method SemCreate(name: string, initialCount: int) returns (ok: bool)
      modifies this
      ensures Step(semaphores, ok) == Create(old(semaphores), name, initialCount)
    {
      if name in semaphores {
        ok := false;
      } else {
        semaphores := semaphores[name := initialCount];
        ok := true;
      }
    }
  }
}
