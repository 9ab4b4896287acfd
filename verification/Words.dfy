module Words {
  const TWO_64 := 0x1_0000_0000_0000_0000

  // A uint64_t value.
  type Word = x: int | 0 <= x < TWO_64
}
