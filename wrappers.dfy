/** An optional value: the model's rendering of Kotlin's nullable types and of
    operations that throw (a thrown exception becomes `None`). */
module Wrappers {
  datatype Option<+T> = None | Some(value: T)
}
