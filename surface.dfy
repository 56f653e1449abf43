/**
 * The per-screen texture record (TextureInfo) and the decision whether its GL
 * storage must be reallocated for the framebuffer of the current frame.
 */
module Surface {
  import opened Wrappers
  import GL
  import opened Gpu
  import opened Formats

  /** What the renderer caches about one screen's texture. */
  datatype TextureInfo = TextureInfo(
    handle: nat,
    width: int,
    height: int,
    format: PixelFormat,
    glFormat: GL.GLenum,
    glType: GL.GLenum)

  /** The check in front of the reallocation: the record's shape differs from the framebuffer's. */
  predicate NeedsRealloc(t: TextureInfo, fb: FramebufferConfig) {
    t.width != fb.width || t.height != fb.height || t.format != fb.colorFormat
  }

  /** The record's transfer format and type are the table's entries for its emulated format. */
  predicate Configured(t: TextureInfo) {
    var info := FormatTable(t.format);
    info.Some? && t.glFormat == info.value.format && t.glType == info.value.pixelType
  }

  /** A record whose transfer format and type were never set. */
  predicate Unconfigured(t: TextureInfo) {
    t.glFormat == 0 && t.glType == 0
  }

  /** Every record the renderer holds is configured or has never been configured. */
  predicate Coherent(t: TextureInfo) {
    Configured(t) || Unconfigured(t)
  }

  /**
   * The record after ConfigureFramebufferTexture: format, width and height are
   * taken from the framebuffer before the format switch runs; the transfer
   * format and type are set only for a known format.
   */
  function ConfigureRecord(t: TextureInfo, fb: FramebufferConfig): (r: TextureInfo)
    ensures r.handle == t.handle
    ensures r.width == fb.width && r.height == fb.height && r.format == fb.colorFormat
    ensures !NeedsRealloc(r, fb)
    ensures IsKnownFormat(fb.colorFormat) ==> Configured(r)
    ensures !IsKnownFormat(fb.colorFormat) ==> r.glFormat == t.glFormat && r.glType == t.glType
  {
    var shaped := t.(format := fb.colorFormat, width := fb.width, height := fb.height);
    match FormatTable(fb.colorFormat)
    case Some(info) => shaped.(glFormat := info.format, glType := info.pixelType)
    case None => shaped
  }

  /** The GL calls ConfigureFramebufferTexture issues: bind, then allocate storage with no data. */
  function ConfigureCalls(t: TextureInfo, fb: FramebufferConfig): (calls: seq<GL.Call>)
    requires IsKnownFormat(fb.colorFormat)
    ensures GL.Allocations(calls) == 1
  {
    var info := FormatTable(fb.colorFormat).value;
    var calls := [GL.BindTexture(t.handle),
                  GL.TexImage2D(info.internalFormat, fb.width, fb.height, info.format, info.pixelType, None)];
    assert GL.Allocations(calls[1..][1..]) == 0 by { assert calls[1..][1..] == []; }
    assert GL.Allocations(calls[1..]) == 1;
    calls
  }

  /** GL holds storage for the record's texture with exactly the record's shape and format. */
  predicate StorageAgrees(s: GL.GLState, t: TextureInfo) {
    IsKnownFormat(t.format) && t.handle in s.storage &&
    s.storage[t.handle] == GL.Storage(t.width, t.height, FormatTable(t.format).value.internalFormat)
  }
}
