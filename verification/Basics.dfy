/** What several parts of the kernel share. */
module Basics {
  type Byte = n: nat | n < 256

  const PAGE_SIZE: nat := 4096
  const NR_TASKS: nat := 64

  datatype Option<T> = None | Some(value: T)

  function Min(a: nat, b: nat): nat { if a < b then a else b }
}
