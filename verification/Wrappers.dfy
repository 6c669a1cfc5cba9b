/** Shared building blocks: optional values (Go's nil-able references and (value, error) pairs are
    modelled with these) and bytes. */
module Wrappers {

  /** `None` stands for Go's nil; `Some(v)` for a non-nil reference `v`. */
  datatype Option<+T> = None | Some(value: T)

  /** A byte of host memory, of a Go string or of a socket stream. */
  type Byte = bv8
}
