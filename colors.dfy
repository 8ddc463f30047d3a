// The colour values of the console toolkit, treated as opaque constants:
// nothing in the game does arithmetic on them.
module Colors {
  newtype u8 = n: int | 0 <= n < 256

  datatype Color = Color(r: u8, g: u8, b: u8)

  const BLACK: Color := Color(0, 0, 0)
  const WHITE: Color := Color(255, 255, 255)
  const YELLOW: Color := Color(255, 255, 0)
}
