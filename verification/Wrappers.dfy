/** The optional value used across the project for a C or C# reference that may be null. */
module Wrappers {
  datatype Option<+T> = None | Some(value: T)
}
