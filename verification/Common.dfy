// Small vocabulary shared by every module of the model.

module Common {
  /** One octet on a wire, in a FIFO or in memory. */
  type Byte = bv8

  /** The machine's 64-bit index type: Dafny checks that no operation leaves it. */
  newtype usize = x: int | 0 <= x < 0x1_0000_0000_0000_0000

  const USIZE_MAX: usize := 0xffff_ffff_ffff_ffff

  datatype Option<+T> = None | Some(value: T)

  function Min(a: int, b: int): int {
    if a <= b then a else b
  }

  ghost predicate IsPrefix<T>(a: seq<T>, b: seq<T>) {
    |a| <= |b| && a == b[..|a|]
  }
}
