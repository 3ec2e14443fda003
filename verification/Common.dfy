/** Machine integers, bytes and the small datatypes shared by every component. */
module Common {

  const U32_LIMIT: int := 0x1_0000_0000
  const U64_LIMIT: int := 0x1_0000_0000_0000_0000

  type byte = x: int | 0 <= x < 0x100
  type u16 = x: int | 0 <= x < 0x1_0000
  type u32 = x: int | 0 <= x < 0x1_0000_0000
  type u64 = x: int | 0 <= x < 0x1_0000_0000_0000_0000
  type i32 = x: int | -0x8000_0000 <= x < 0x8000_0000

  /** A `std::string` or a socket payload: raw bytes, no encoding. */
  type Bytes = seq<byte>

  /** A connection object, known by its address. */
  type Conn = nat

  datatype Option<+T> = None | Some(value: T)

  datatype Result<+T, +E> = Ok(value: T) | Err(error: E)

  /** `++x` on a `std::uint64_t`: the maximum wraps to zero. */
  function Next64(x: u64): u64 {
    (x + 1) % U64_LIMIT
  }
}
