/** Types shared by all components. */
module Common {

  /** An optional value, in place of Go's nil pointers and error returns that carry nothing. */
  datatype Option<+T> = None | Some(value: T)

  type Byte = i: int | 0 <= i < 256

  type Bytes = seq<Byte>
}
