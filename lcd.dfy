/** The LCD colour-fill registers, read once per screen and frame. */
module Lcd {
  /** Virtual base address of the LCD register block. */
  const VADDR_LCD: nat := 0x1ED02000

  /** Word indices of the colour-fill registers within the LCD register block. */
  const COLOR_FILL_TOP_INDEX: nat := 0x81
  const COLOR_FILL_BOTTOM_INDEX: nat := 0x281

  /** A decoded colour-fill register: when enabled the screen shows one solid colour. */
  datatype ColorFill = ColorFill(isEnabled: bool, colorR: bv8, colorG: bv8, colorB: bv8)

  /**
   * Address of the colour-fill register of screen 0 (top) or screen 1 (bottom):
   * the LCD base plus four bytes per register index.
   */
  function ColorFillAddress(screen: nat): (addr: nat)
    requires screen < 2
    ensures screen == 0 ==> addr == 0x1ED02204
    ensures screen == 1 ==> addr == 0x1ED02A04
    ensures addr % 4 == 0
  {
    var index := if screen == 0 then COLOR_FILL_TOP_INDEX else COLOR_FILL_BOTTOM_INDEX;
    VADDR_LCD + 4 * index
  }
}
