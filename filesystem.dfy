/**
 * The in-memory file store of filesystem.py: a map from file name to file
 * record and a free-space counter that starts at 1024 bytes.
 */
module Filesystem {
  import opened Common

  /** Total size of the store in bytes, the initial value of `free_space`. */
  const Capacity: int := 1024

  /** A file record `{"name", "size", "data"}`; sizes are unbounded Python ints. */
  datatype File = File(name: string, size: int, data: Bytes)

  /** The abstract value of a `FileSystem` object. */
  datatype Store = Store(files: map<string, File>, freeSpace: int)

  function Initial(): Store {
    Store(map[], Capacity)
  }

  /** `create_file`: succeeds exactly when the requested size fits into the free space. */
  function Create(s: Store, name: string, size: int): (r: Step<Store, Option<File>>)
    ensures r.out.Some? <==> s.freeSpace >= size
    ensures r.out.Some? ==>
      && r.out.value == File(name, size, [])
      && name in r.state.files && r.state.files[name] == r.out.value
      && r.state.files.Keys == s.files.Keys + {name}
      && (forall n :: n in s.files && n != name ==> r.state.files[n] == s.files[n])
      && r.state.freeSpace == s.freeSpace - size
    ensures r.out.None? ==> r.state == s
  {
    if s.freeSpace >= size then
      var file := File(name, size, []);
      Step(Store(s.files[name := file], s.freeSpace - size), Some(file))
    else
      Step(s, None)
  }

  /** `delete_file`: removes an existing file and gives its size back to the free space. */
  function Delete(s: Store, name: string): (r: Step<Store, bool>)
    ensures r.out <==> name in s.files
    ensures r.out ==>
      && r.state.files.Keys == s.files.Keys - {name}
      && (forall n :: n in r.state.files ==> r.state.files[n] == s.files[n])
      && r.state.freeSpace == s.freeSpace + s.files[name].size
    ensures !r.out ==> r.state == s
  {
    if name in s.files then
      Step(Store(s.files - {name}, s.freeSpace + s.files[name].size), true)
    else
      Step(s, false)
  }

  /** `read_file`: the stored data of the file, or `None` for an unknown name. */
  function Read(s: Store, name: string): (r: Option<Bytes>)
    ensures r.Some? <==> name in s.files
    ensures r.Some? ==> r.value == s.files[name].data
  {
    if name in s.files then Some(s.files[name].data) else None
  }

  /**
   * `write_file`: replaces the data of an existing file. The size recorded at
   * creation and the free space are left alone; the data length is never
   * compared with the size.
   */
  function Write(s: Store, name: string, data: Bytes): (r: Step<Store, bool>)
    ensures r.out <==> name in s.files
    ensures r.state.freeSpace == s.freeSpace
    ensures r.state.files.Keys == s.files.Keys
    ensures forall n :: n in s.files ==>
      && r.state.files[n].size == s.files[n].size
      && r.state.files[n].name == s.files[n].name
      && (n != name ==> r.state.files[n] == s.files[n])
    ensures r.out ==> r.state.files[name].data == data
  {
    if name in s.files then
      Step(Store(s.files[name := s.files[name].(data := data)], s.freeSpace), true)
    else
      Step(s, false)
  }

  // ---------------------------------------------------------------------
  // Capacity accounting

  /** An arbitrary but fixed element of a non-empty set of names. */
  ghost function PickName(names: set<string>): (n: string)
    requires names != {}
    ensures n in names
  {
    var n :| n in names; n
  }

  /** The sum of the sizes of all stored files. */
  ghost function SumSizes(files: map<string, File>): int
    decreases |files.Keys|
  {
    if files.Keys == {} then 0
    else
      var n := PickName(files.Keys);
      assert files.Keys - {n} < files.Keys;
      files[n].size + SumSizes(files - {n})
  }

  /** The free space plus the sizes of the stored files is the total capacity. */
  ghost predicate Conserved(s: Store) {
    s.freeSpace + SumSizes(s.files) == Capacity
  }

  /** The sum can be split at any name, not only at the one `SumSizes` picks. */
  lemma {:induction false} SumSizesAt(files: map<string, File>, name: string)
    requires name in files
    ensures SumSizes(files) == files[name].size + SumSizes(files - {name})
    decreases |files.Keys|
  {
    var n := PickName(files.Keys);
    if n != name {
      assert files.Keys - {n} < files.Keys;
      assert (files - {n}).Keys == files.Keys - {n};
      SumSizesAt(files - {n}, name);
      assert files - {name} - {n} == files - {n} - {name};
      assert (files - {name}).Keys - {n} < (files - {name}).Keys;
      SumSizesAt(files - {name}, n);
    }
  }

  /** Only the sizes matter to the sum: two maps with the same names and sizes have the same sum. */
  lemma {:induction false} SumSizesOfSizes(a: map<string, File>, b: map<string, File>)
    requires a.Keys == b.Keys
    requires forall n :: n in a ==> a[n].size == b[n].size
    ensures SumSizes(a) == SumSizes(b)
    decreases |a.Keys|
  {
    if a.Keys != {} {
      var n := PickName(a.Keys);
      assert a.Keys - {n} < a.Keys;
      assert (a - {n}).Keys == (b - {n}).Keys;
      SumSizesOfSizes(a - {n}, b - {n});
    }
  }

  lemma CreateFreshConserves(s: Store, name: string, size: int)
    requires Conserved(s) && name !in s.files
    ensures Conserved(Create(s, name, size).state)
  {
    var r := Create(s, name, size);
    if r.out.Some? {
      SumSizesAt(r.state.files, name);
      assert r.state.files - {name} == s.files;
    }
  }

  /**
   * Creating over an existing name replaces the old record without refunding
   * its size: the accounting then loses exactly the old file's size.
   */
  lemma CreateExistingLeaks(s: Store, name: string, size: int)
    requires Conserved(s) && name in s.files && s.freeSpace >= size
    ensures var t := Create(s, name, size).state;
      t.freeSpace + SumSizes(t.files) == Capacity - s.files[name].size
  {
    var t := Create(s, name, size).state;
    SumSizesAt(s.files, name);
    SumSizesAt(t.files, name);
    assert t.files - {name} == s.files - {name};
  }

  lemma DeleteConserves(s: Store, name: string)
    requires Conserved(s)
    ensures Conserved(Delete(s, name).state)
  {
    if name in s.files {
      SumSizesAt(s.files, name);
      assert Delete(s, name).state.files == s.files - {name};
    }
  }

  lemma WriteConserves(s: Store, name: string, data: Bytes)
    requires Conserved(s)
    ensures Conserved(Write(s, name, data).state)
  {
    SumSizesOfSizes(s.files, Write(s, name, data).state.files);
  }

  // ---------------------------------------------------------------------
  // Sequences of operations

  datatype FsOp =
    | CreateOp(name: string, size: int)
    | DeleteOp(name: string)
    | ReadOp(name: string)
    | WriteOp(name: string, data: Bytes)

  function Apply(s: Store, op: FsOp): Store {
    match op
    case CreateOp(n, size) => Create(s, n, size).state
    case DeleteOp(n) => Delete(s, n).state
    case ReadOp(_) => s
    case WriteOp(n, d) => Write(s, n, d).state
  }

  function Run(s: Store, ops: seq<FsOp>): Store
    decreases |ops|
  {
    if ops == [] then s else Run(Apply(s, ops[0]), ops[1..])
  }

  /** Every create in `ops` names a file that is absent at the moment it runs. */
  predicate FreshCreates(s: Store, ops: seq<FsOp>)
    decreases |ops|
  {
    ops == [] ||
    ((ops[0].CreateOp? ==> ops[0].name !in s.files) && FreshCreates(Apply(s, ops[0]), ops[1..]))
  }

  /** Free space plus stored sizes stays at 1024 over any run whose creates use fresh names. */
  lemma {:induction false} RunConserves(s: Store, ops: seq<FsOp>)
    requires Conserved(s) && FreshCreates(s, ops)
    ensures Conserved(Run(s, ops))
    decreases |ops|
  {
    if ops != [] {
      match ops[0] {
        case CreateOp(n, size) => CreateFreshConserves(s, n, size);
        case DeleteOp(n) => DeleteConserves(s, n);
        case ReadOp(_) =>
        case WriteOp(n, d) => WriteConserves(s, n, d);
      }
      RunConserves(Apply(s, ops[0]), ops[1..]);
    }
  }

  lemma InitialConserved()
    ensures Conserved(Initial())
  {
  }

  /** The free space and every stored size are non-negative. */
  predicate Sane(s: Store) {
    s.freeSpace >= 0 && forall n :: n in s.files ==> s.files[n].size >= 0
  }

  predicate NonNegativeSizes(ops: seq<FsOp>) {
    forall i :: 0 <= i < |ops| && ops[i].CreateOp? ==> ops[i].size >= 0
  }

  /** With non-negative requested sizes the free space never becomes negative. */
  lemma {:induction false} RunStaysSane(s: Store, ops: seq<FsOp>)
    requires Sane(s) && NonNegativeSizes(ops)
    ensures Sane(Run(s, ops))
    decreases |ops|
  {
    if ops != [] {
      assert ops[0].CreateOp? ==> ops[0].size >= 0;
      var t := Apply(s, ops[0]);
      assert Sane(t);
      assert NonNegativeSizes(ops[1..]) by {
        forall i | 0 <= i < |ops[1..]| && ops[1..][i].CreateOp?
          ensures ops[1..][i].size >= 0
        {
          assert ops[1..][i] == ops[i + 1];
        }
      }
      RunStaysSane(t, ops[1..]);
    }
  }

  /** A read returns the data of the last write; a write of an absent name is a no-op. */
  lemma ReadAfterWrite(s: Store, name: string, data: Bytes)
    ensures Read(Write(s, name, data).state, name) == if name in s.files then Some(data) else None
  {
  }

  /** Right after a successful create the file reads as empty. */
  lemma ReadAfterCreate(s: Store, name: string, size: int)
    requires s.freeSpace >= size
    ensures Read(Create(s, name, size).state, name) == Some([])
  {
  }

  /** Creating a fresh file and deleting it again restores the store exactly. */
  lemma CreateThenDelete(s: Store, name: string, size: int)
    requires name !in s.files && s.freeSpace >= size
    ensures Delete(Create(s, name, size).state, name) == Step(s, true)
  {
    assert Create(s, name, size).state.files - {name} == s.files;
  }

  /** The mutable `FileSystem` object: its methods update `files` and `freeSpace` in place. */
  class FileSystem {
    var files: map<string, File>
    var freeSpace: int

    function Abs(): Store
      reads this
    {
      Store(files, freeSpace)
    }

    constructor ()
      ensures Abs() == Initial()
    {
      files := map[];
      freeSpace := Capacity;
    }

    method CreateFile(name: string, size: int) returns (r: Option<File>)
      modifies this
      ensures Step(Abs(), r) == Create(old(Abs()), name, size)
    {
      if freeSpace >= size {
        var file := File(name, size, []);
        files := files[name := file];
        freeSpace := freeSpace - size;
        r := Some(file);
      } else {
        r := None;
      }
    }

    method DeleteFile(name: string) returns (ok: bool)
      modifies this
      ensures Step(Abs(), ok) == Delete(old(Abs()), name)
    {
      if name in files {
        var file := files[name];
        files := files - {name};
        freeSpace := freeSpace + file.size;
        ok := true;
      } else {
        ok := false;
      }
    }

    method ReadFile(name: string) returns (r: Option<Bytes>)
      ensures r.Some? <==> name in files
      ensures r.Some? ==> r.value == files[name].data
    {
      if name in files {
        r := Some(files[name].data);
      } else {
        r := None;
      }
    }

    method WriteFile(name: string, data: Bytes) returns (ok: bool)
      modifies this
      ensures Step(Abs(), ok) == Write(old(Abs()), name, data)
    {
      if name in files {
        files := files[name := files[name].(data := data)];
        ok := true;
      } else {
        ok := false;
      }
    }
  }
}
