/** Small value wrappers shared by every module of the model. */
module Wrappers {

  /** A value that may be absent: the model's stand-in for a C# `null` reference
      and for `DateTime.MinValue` used as "never". */
  datatype Option<+T> = None | Some(value: T)

  /** An octet, as carried by `byte[]` in the source. */
  newtype byte = x: int | 0 <= x < 256
}
