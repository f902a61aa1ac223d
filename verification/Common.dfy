/** Shared by the other modules. */
module Common {
  datatype Option<+T> = None | Some(value: T)

  /** Allocations of this many bytes or more abort the program. */
  const ALLOCATION_LIMIT: nat := 0x8000_0000_0000_0000

  newtype byte = x: int | 0 <= x < 256
}
