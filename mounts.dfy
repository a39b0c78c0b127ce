/**
 * The mount table of mk.py and the path routing of its four file
 * operations. Every mount point maps to the kernel's single shared driver,
 * so the table is modelled as the set of mounted points.
 */
module Mounts {
  import opened Common

  /** The only prefix the dispatchers ever consult. */
  const Prefix: string := "/mnt"

  type MountTable = set<string>

  /** `mount_file_system`: adds the point unless it is already mounted. */
  function Mount(t: MountTable, point: string): (r: Step<MountTable, bool>)
    ensures r.out <==> point !in t
    ensures r.state == t + {point}
  {
    if point in t then Step(t, false) else Step(t + {point}, true)
  }

  /** `unmount_file_system`: removes exactly the given point, reporting whether it was there. */
  function Unmount(t: MountTable, point: string): (r: Step<MountTable, bool>)
    ensures r.out <==> point in t
    ensures r.state == t - {point}
  {
    if point in t then Step(t - {point}, true) else Step(t, false)
  }

  /**
   * The path a dispatcher hands to the driver: the rest after `"/mnt"`, when the
   * path starts with `"/mnt"` and `"/mnt"` is mounted; `None` otherwise.
   */
  function Route(t: MountTable, path: string): (r: Option<string>)
    ensures r.Some? <==> Prefix <= path && Prefix in t
    ensures r.Some? ==> Prefix + r.value == path
  {
    if Prefix <= path then
      if Prefix in t then Some(path[|Prefix|..]) else None
    else
      None
  }

  /** After unmounting `"/mnt"` no path is routed any more. */
  lemma UnmountStopsRouting(t: MountTable, path: string)
    ensures Route(Unmount(t, Prefix).state, path) == None
  {
  }

  /** Only `"/mnt"` matters: mounting any other point does not change routing. */
  lemma OtherPointsIgnored(t: MountTable, point: string, path: string)
    requires point != Prefix
    ensures Route(Mount(t, point).state, path) == Route(t, path)
  {
  }

  /** The prefix test is textual: `"/mntx/a"` is routed to the driver as `"x/a"`. */
  lemma PrefixIsTextual()
    ensures Route({Prefix}, "/mntx/a") == Some("x/a")
  {
    assert "/mntx/a"[..4] == Prefix;
  }
}
