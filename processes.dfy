/**
 * The process list of mk.py: a Python list of ids, appended to by
 * `add_process` and shrunk by `list.remove` in `stop_process`.
 */
module Processes {
  import opened Common

  type Pid = int

  /** Position of the first occurrence of `pid`, the one `list.remove` deletes. */
  function FirstIndex(s: seq<Pid>, pid: Pid): (i: nat)
    requires pid in s
    ensures i < |s| && s[i] == pid
    ensures pid !in s[..i]
  {
    if s[0] == pid then 0 else 1 + FirstIndex(s[1..], pid)
  }

  /** `add_process`: appends, even when the id is already listed, and always reports success. */
  function Add(s: seq<Pid>, pid: Pid): (r: Step<seq<Pid>, bool>)
    ensures |r.state| == |s| + 1 && r.state[..|s|] == s && r.state[|s|] == pid
    ensures r.out
  {
    Step(s + [pid], true)
  }

  /**
   * `stop_process`: removes the first occurrence of the id. An absent id makes
   * `list.remove` raise `ValueError`; that is `out == false` with the list unchanged.
   */
  function Stop(s: seq<Pid>, pid: Pid): (r: Step<seq<Pid>, bool>)
    ensures r.out <==> pid in s
    ensures !r.out ==> r.state == s
    ensures r.out ==> multiset(r.state) == multiset(s) - multiset{pid}
    ensures r.out ==> exists i :: 0 <= i < |s| && s[i] == pid && pid !in s[..i] && r.state == s[..i] + s[i + 1..]
  {
    if pid in s then
      var i := FirstIndex(s, pid);
      assert s == s[..i] + [s[i]] + s[i + 1..];
      Step(s[..i] + s[i + 1..], true)
    else
      Step(s, false)
  }

  /** Adding a fresh id and stopping it again gives back the same list. */
  lemma AddThenStopFresh(s: seq<Pid>, pid: Pid)
    requires pid !in s
    ensures Stop(Add(s, pid).state, pid) == Step(s, true)
  {
    var t := Add(s, pid).state;
    assert t[..|s|] == s;
    assert FirstIndex(t, pid) == |s|;
    assert t[..|s|] + t[|s| + 1..] == s;
  }

  /**
   * When the id was already listed, stopping it removes the earlier entry, so
   * the list keeps the same ids but not necessarily the same order.
   */
  lemma AddThenStopRestoresMembers(s: seq<Pid>, pid: Pid)
    ensures multiset(Stop(Add(s, pid).state, pid).state) == multiset(s)
  {
  }
}
