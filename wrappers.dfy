/** An absent-or-present value. A C pointer that may be NULL is modelled as
    `Option<T>`: `None` is the NULL pointer, `Some(v)` points at `v`. */
module Wrappers {

  datatype Option<+T> = None | Some(value: T)
}
