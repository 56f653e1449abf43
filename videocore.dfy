/** Native resolutions of the two emulated screens. */
module VideoCore {
  const SCREEN_TOP_WIDTH: int := 400
  const SCREEN_TOP_HEIGHT: int := 240
  const SCREEN_BOTTOM_WIDTH: int := 320
  const SCREEN_BOTTOM_HEIGHT: int := 240

  /** The larger of two widths: wide enough for either screen and equal to one of them. */
  function MaxWidth(a: int, b: int): (w: int)
    ensures w >= a && w >= b
    ensures w == a || w == b
  {
    if a >= b then a else b
  }
}
