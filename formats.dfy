/**
 * The pixel-format table of ConfigureFramebufferTexture: how each emulated
 * colour format is stored in and transferred to an OpenGL texture, and the
 * fatal faults the per-frame pipeline can raise.
 */
module Formats {
  import opened Wrappers
  import GL
  import opened Gpu

  /** The GL internal format, transfer format and transfer type for one emulated format. */
  datatype GLFormatInfo = GLFormatInfo(internalFormat: GL.GLenum, format: GL.GLenum, pixelType: GL.GLenum)

  /** Fatal conditions: the source's UNIMPLEMENTED and its two stride ASSERTs. */
  datatype Fault =
    | UnimplementedFormat(format: PixelFormat)
    | StrideNotPixelMultiple(stride: nat, bytesPerPixel: nat)
    | PixelStrideNotMultipleOf4(pixelStride: nat)

  datatype Outcome = Done | Fatal(fault: Fault)

  /**
   * The format switch. It is defined exactly on the five known formats; every
   * entry is a format/type pair GL accepts, reads as many bytes per pixel as the
   * emulated format occupies, and stores as many components as it transfers.
   */
  function FormatTable(f: PixelFormat): (r: Option<GLFormatInfo>)
    ensures r.Some? <==> IsKnownFormat(f)
    ensures r.Some? ==> GL.ValidTransfer(r.value.format, r.value.pixelType)
    ensures r.Some? ==> GL.GroupBytes(r.value.format, r.value.pixelType) == BytesPerPixel(f).value
    ensures r.Some? ==> GL.Components(r.value.internalFormat) == GL.Components(r.value.format)
  {
    if f == RGBA8 then Some(GLFormatInfo(GL.RGBA, GL.RGBA, GL.UNSIGNED_INT_8_8_8_8))
    // GL_UNSIGNED_BYTE gives byte order, so the little-endian RGB8 bytes read as BGR
    else if f == RGB8 then Some(GLFormatInfo(GL.RGB, GL.BGR, GL.UNSIGNED_BYTE))
    else if f == RGB565 then Some(GLFormatInfo(GL.RGB, GL.RGB, GL.UNSIGNED_SHORT_5_6_5))
    else if f == RGB5A1 then Some(GLFormatInfo(GL.RGBA, GL.RGBA, GL.UNSIGNED_SHORT_5_5_5_1))
    else if f == RGBA4 then Some(GLFormatInfo(GL.RGBA, GL.RGBA, GL.UNSIGNED_SHORT_4_4_4_4))
    else None
  }

  /** The table's five rows, spelled out. */
  lemma FormatTableEntries()
    ensures FormatTable(RGBA8) == Some(GLFormatInfo(GL.RGBA, GL.RGBA, GL.UNSIGNED_INT_8_8_8_8))
    ensures FormatTable(RGB8) == Some(GLFormatInfo(GL.RGB, GL.BGR, GL.UNSIGNED_BYTE))
    ensures FormatTable(RGB565) == Some(GLFormatInfo(GL.RGB, GL.RGB, GL.UNSIGNED_SHORT_5_6_5))
    ensures FormatTable(RGB5A1) == Some(GLFormatInfo(GL.RGBA, GL.RGBA, GL.UNSIGNED_SHORT_5_5_5_1))
    ensures FormatTable(RGBA4) == Some(GLFormatInfo(GL.RGBA, GL.RGBA, GL.UNSIGNED_SHORT_4_4_4_4))
    ensures forall f :: !IsKnownFormat(f) ==> FormatTable(f) == None
  {
  }
}
