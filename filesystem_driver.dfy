/**
 * The pass-through driver of filesystem_driver.py: it owns one `FileSystem`
 * and forwards each of the four file operations to it unchanged.
 */
module FilesystemDriver {
  import opened Common
  import opened Filesystem

  class FileSystemDriver {
    /** The driver's only state; it is never reassigned after construction. */
    const fileSystem: FileSystem

    constructor ()
      ensures fresh(fileSystem)
      ensures fileSystem.Abs() == Initial()
    {
      fileSystem := new FileSystem();
    }

    /** Same result and same effect on the wrapped store as `FileSystem.CreateFile`. */
    method CreateFile(name: string, size: int) returns (r: Option<File>)
      modifies fileSystem
      ensures Step(fileSystem.Abs(), r) == Create(old(fileSystem.Abs()), name, size)
    {
      r := fileSystem.CreateFile(name, size);
    }

    method DeleteFile(name: string) returns (ok: bool)
      modifies fileSystem
      ensures Step(fileSystem.Abs(), ok) == Delete(old(fileSystem.Abs()), name)
    {
      ok := fileSystem.DeleteFile(name);
    }

    method ReadFile(name: string) returns (r: Option<Bytes>)
      ensures r == Read(fileSystem.Abs(), name)
      ensures r.Some? ==> name in fileSystem.files && r.value == fileSystem.files[name].data
    {
      r := fileSystem.ReadFile(name);
    }

    method WriteFile(name: string, data: Bytes) returns (ok: bool)
      modifies fileSystem
      ensures Step(fileSystem.Abs(), ok) == Write(old(fileSystem.Abs()), name, data)
    {
      ok := fileSystem.WriteFile(name, data);
    }
  }
}
