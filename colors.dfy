/** The colour value an LED holds: three channels of one byte each, compared by value. */
module Colors {

  type Byte = x: int | 0 <= x < 256

  datatype Color = Color(r: Byte, g: Byte, b: Byte)

  /** What `Color()` builds when given no arguments: every channel off. */
  const Default: Color := Color(0, 0, 0)
}
