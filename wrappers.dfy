/** Small value wrappers shared by the whole model. */
module Wrappers {

  /** The conventional optional value. */
  datatype Option<T> = None | Some(value: T)

  /** A field of a JSON object as Python's `obj.get(key, default)` sees it:
      the key may be missing, may hold `null`, or may hold a value. */
  datatype Field<T> = Absent | Null | Present(value: T)
}
