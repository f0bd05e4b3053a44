/** Machine-level vocabulary shared by every component. */
module Machine {
  datatype Option<+T> = None | Some(value: T)

  type byte = x: int | 0 <= x < 256

  /** A C uint16_t; arithmetic on it wraps and is written out where it happens. */
  type u16 = x: int | 0 <= x < 0x1_0000

  function Inc16(x: u16): u16 {
    (x + 1) % 0x1_0000
  }

  function Dec16(x: u16): u16 {
    (x - 1) % 0x1_0000
  }
}
