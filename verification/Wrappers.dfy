/** Types shared by all parts of the model. */
module Wrappers {
  /** The absent-or-present value used where the source returns or accepts NULL. */
  datatype Option<+T> = None | Some(value: T)

  /** The source's unsigned int. */
  type uint32 = n: nat | n < 0x1_0000_0000
}
