/** What every part of the project may need. */
module Basics {

  datatype Option<+T> = None | Some(value: T)

  // Widths of the machine's words.
  const U32: nat := 0x1_0000_0000
  const U64: nat := 0x1_0000_0000_0000_0000
}
