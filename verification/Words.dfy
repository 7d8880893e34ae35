/** Machine words and the optional value, shared by all modules. */
module Words {
  const TWO_32 := 0x1_0000_0000
  const TWO_63 := 0x8000_0000_0000_0000
  const TWO_64 := 0x1_0000_0000_0000_0000

  type Word64 = w: int | 0 <= w < TWO_64

  datatype Option<+T> = None | Some(value: T)
}
