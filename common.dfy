/** Shared vocabulary of the todo-app client model: record identifiers,
    JavaScript truthiness of an optional identifier, and the two ways a
    call into the record service can end. */
module Common {

  /** A record identifier as the record service assigns it. */
  type Id = string

  datatype Option<+T> = None | Some(value: T)

  /** An error raised by the record service (validation, authorization or
      transport failure); its content is opaque to the client. */
  datatype Error = Error(message: string)

  /** How one awaited call into the record service ends: it returns a value
      or it throws. */
  datatype Outcome<+T> = Returns(value: T) | Throws(error: Error)

  /** `if (x)` on a `string | null`: null and the empty string are falsy. */
  predicate Truthy(x: Option<Id>) {
    x.Some? && x.value != ""
  }
}

/** Vue's `Ref<T>`: a shared mutable cell. Composables receive refs and
    write through them, so every holder of the same ref sees the change. */
module Refs {

  class Ref<T> {
    var value: T

    constructor (v: T)
      ensures value == v
    {
      value := v;
    }
  }
}
