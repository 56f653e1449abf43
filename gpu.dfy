/**
 * The emulated GPU's framebuffer configuration registers, as far as the
 * renderer reads them, and the bytes-per-pixel of each emulated colour format.
 */
module Gpu {
  import opened Wrappers

  /** The raw value of a framebuffer's color_format field; values past RGBA4 are unsupported. */
  type PixelFormat = nat

  const RGBA8: PixelFormat := 0
  const RGB8: PixelFormat := 1
  const RGB565: PixelFormat := 2
  const RGB5A1: PixelFormat := 3
  const RGBA4: PixelFormat := 4

  /** The five colour formats the renderer knows. */
  predicate IsKnownFormat(f: PixelFormat) {
    f <= RGBA4
  }

  /** Bytes per pixel of a colour format; None where the GPU code reports an unimplemented format. */
  function BytesPerPixel(f: PixelFormat): (r: Option<nat>)
    ensures r.Some? <==> IsKnownFormat(f)
    ensures r.Some? ==> 2 <= r.value <= 4
  {
    if f == RGBA8 then Some(4)
    else if f == RGB8 then Some(3)
    else if IsKnownFormat(f) then Some(2)
    else None
  }

  /** One screen's framebuffer configuration, a read-only snapshot taken each frame. */
  datatype FramebufferConfig = FramebufferConfig(
    addressLeft1: nat,
    addressLeft2: nat,
    activeFb: nat,
    width: nat,
    height: nat,
    stride: nat,
    colorFormat: PixelFormat)
}
