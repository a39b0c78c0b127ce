/** Small value types shared by every component of the kernel model. */
module Common {

  /** A value that may be absent; `None` stands for Python's `None`. */
  datatype Option<+T> = None | Some(value: T)

  /** What an operation leaves behind (`state`) together with what it returns (`out`). */
  datatype Step<S, T> = Step(state: S, out: T)

  type Byte = b: int | 0 <= b < 256

  /** File contents and device blocks are byte strings. */
  type Bytes = seq<Byte>
}
