/** The optional value used throughout the model (Rust's `Option<T>`). */
module Wrappers {
  datatype Option<+T> = None | Some(value: T) {
    /** The value as a sequence of at most one element. */
    function ToSeq(): seq<T>
    {
      if Some? then [value] else []
    }
  }
}
