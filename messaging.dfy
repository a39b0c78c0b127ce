/**
 * The two FIFO messaging mechanisms of mk.py. Per-process mailboxes
 * (`process_queues`, keyed by process id) and named queues
 * (`message_queues`, keyed by name) share one structure: a map from key to a
 * Python list that `append` grows at the back and `pop(0)` shrinks at the front.
 */
module Messaging {
  import opened Common

  /** Message payloads are opaque to the kernel. */
  type Message = string

  type Boxes<K> = map<K, seq<Message>>

  /** `send_message` / `send_message_queue`: appends at the back iff the key has a queue. */
  function Send<K>(b: Boxes<K>, k: K, m: Message): (r: Step<Boxes<K>, bool>)
    ensures r.out <==> k in b
    ensures r.state.Keys == b.Keys
    ensures forall j :: j in b && j != k ==> r.state[j] == b[j]
    ensures k in b ==> r.state[k] == b[k] + [m]
  {
    if k in b then Step(b[k := b[k] + [m]], true) else Step(b, false)
  }

  /**
   * `receive_message` / `receive_message_queue`: removes and returns the
   * oldest message, or returns `None` without any change when the key is
   * unknown or its queue is empty.
   */
  function Receive<K>(b: Boxes<K>, k: K): (r: Step<Boxes<K>, Option<Message>>)
    ensures r.out.Some? <==> k in b && b[k] != []
    ensures r.out.None? ==> r.state == b
    ensures r.out.Some? ==>
      && r.out.value == b[k][0]
      && r.state.Keys == b.Keys
      && [r.out.value] + r.state[k] == b[k]
      && (forall j :: j in b && j != k ==> r.state[j] == b[j])
  {
    if k in b && |b[k]| > 0 then Step(b[k := b[k][1..]], Some(b[k][0])) else Step(b, None)
  }

  /** `create_message_queue`: binds the name to an empty queue, replacing any queue it had. */
  function CreateQueue<K>(b: Boxes<K>, k: K): (r: Boxes<K>)
    ensures r.Keys == b.Keys + {k}
    ensures r[k] == []
    ensures forall j :: j in b && j != k ==> r[j] == b[j]
  {
    b[k := []]
  }

  /** Sends the messages of `ms` one after another. */
  function SendAll<K>(b: Boxes<K>, k: K, ms: seq<Message>): Boxes<K>
    decreases |ms|
  {
    if ms == [] then b else SendAll(Send(b, k, ms[0]).state, k, ms[1..])
  }

  /** Receives `n` times and collects the messages that came back. */
  function ReceiveN<K>(b: Boxes<K>, k: K, n: nat): Step<Boxes<K>, seq<Message>>
    decreases n
  {
    if n == 0 then Step(b, [])
    else
      var first := Receive(b, k);
      var rest := ReceiveN(first.state, k, n - 1);
      Step(rest.state, (if first.out.Some? then [first.out.value] else []) + rest.out)
  }

  lemma {:induction false} SendAllAppends<K>(b: Boxes<K>, k: K, ms: seq<Message>)
    requires k in b
    ensures SendAll(b, k, ms) == b[k := b[k] + ms]
    decreases |ms|
  {
    if ms != [] {
      var b' := Send(b, k, ms[0]).state;
      SendAllAppends(b', k, ms[1..]);
      assert b[k] + [ms[0]] + ms[1..] == b[k] + ms;
      assert b'[k := b'[k] + ms[1..]] == b[k := b[k] + ms];
    } else {
      assert b[k] + ms == b[k];
    }
  }

  lemma {:induction false} ReceiveNTakesFront<K>(b: Boxes<K>, k: K, n: nat)
    requires k in b && n <= |b[k]|
    ensures ReceiveN(b, k, n) == Step(b[k := b[k][n..]], b[k][..n])
    decreases n
  {
    if n > 0 {
      var first := Receive(b, k);
      ReceiveNTakesFront(first.state, k, n - 1);
      assert first.state[k][n - 1..] == b[k][n..];
      assert [b[k][0]] + first.state[k][..n - 1] == b[k][..n];
      assert first.state[k := first.state[k][n - 1..]] == b[k := b[k][n..]];
    } else {
      assert b[k := b[k][n..]] == b;
    }
  }

  /**
   * FIFO within one queue: after sending `ms` to a queue holding `q`, receiving
   * `|q| + |ms|` times yields exactly `q + ms`, in order, and leaves the queue empty.
   */
  lemma Fifo<K>(b: Boxes<K>, k: K, ms: seq<Message>)
    requires k in b
    ensures var r := ReceiveN(SendAll(b, k, ms), k, |b[k]| + |ms|);
      r.out == b[k] + ms && r.state == b[k := []]
  {
    var q := b[k] + ms;
    var sent := b[k := q];
    SendAllAppends(b, k, ms);
    assert SendAll(b, k, ms) == sent;
    ReceiveNTakesFront(sent, k, |q|);
    assert q[..|q|] == q && q[|q|..] == [];
    assert sent[k := []] == b[k := []];
  }

  /** Receiving from an empty or unknown queue returns nothing and changes nothing. */
  lemma ReceiveFromEmpty<K>(b: Boxes<K>, k: K)
    requires k !in b || b[k] == []
    ensures Receive(b, k) == Step(b, None)
  {
  }

  /** Re-creating a named queue discards whatever was waiting in it. */
  lemma CreateQueueDiscards<K>(b: Boxes<K>, k: K, m: Message)
    ensures Receive(CreateQueue(Send(b, k, m).state, k), k).out == None
  {
  }
}
