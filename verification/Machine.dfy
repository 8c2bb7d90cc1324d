/** Fixed-width integers and the option type shared by the models. */
module Machine {
  const U64_SIZE: int := 0x1_0000_0000_0000_0000
  const U32_SIZE: int := 0x1_0000_0000

  type U64 = x: int | 0 <= x < U64_SIZE
  type U32 = x: int | 0 <= x < U32_SIZE
  type I64 = x: int | -0x8000_0000_0000_0000 <= x < 0x8000_0000_0000_0000

  const U64_MAX: U64 := U64_SIZE - 1

  datatype Option<+T> = None | Some(value: T)
}
