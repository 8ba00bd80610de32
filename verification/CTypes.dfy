/** The C types and the option type that the models share. */
module CTypes {
  datatype Option<+T> = None | Some(value: T)

  const TWO63: nat := 0x8000_0000_0000_0000
  const TWO64: nat := 0x1_0000_0000_0000_0000

  type byte = n: nat | n < 0x100
  type u32 = n: nat | n < 0x1_0000_0000
  type u64 = n: nat | n < 0x1_0000_0000_0000_0000
}
