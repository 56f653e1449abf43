/**
 * Properties of the renderer's per-frame bookkeeping, stated against the GL
 * state the trace determines (GL.Run) and against the per-screen
 * specification functions that SwapBuffers is proved to follow.
 */
module RendererProofs {
  import opened Wrappers
  import GL
  import opened Gpu
  import opened Lcd
  import opened Formats
  import opened Surface
  import opened Ingest
  import opened Geometry
  import opened OpenGLRenderer

  /** The rotated quad a layout rectangle is drawn on. */
  function ScreenQuad(rect: ScreenRect): seq<GL.Vertex> {
    RotatedQuad(rect.left as real, rect.top as real, rect.width as real, rect.height as real)
  }

  /** The storage GL holds for a texture, if any. */
  function StorageOf(s: GL.GLState, handle: nat): Option<GL.Storage> {
    if handle in s.storage then Some(s.storage[handle]) else None
  }

  predicate NoAllocation(calls: seq<GL.Call>) {
    forall i :: 0 <= i < |calls| ==> !calls[i].TexImage2D?
  }

  predicate NoDraw(calls: seq<GL.Call>) {
    forall i :: 0 <= i < |calls| ==> !calls[i].DrawTriangleStrip?
  }

  /** A trace without glTexImage2D allocates nothing and leaves every texture's storage as it was. */
  lemma {:induction false} NoAllocationKeepsStorage(s: GL.GLState, calls: seq<GL.Call>)
    requires NoAllocation(calls)
    ensures GL.Allocations(calls) == 0
    ensures GL.Run(s, calls).storage == s.storage
    decreases |calls|
  {
    if calls != [] {
      assert calls[0] == calls[0];
      assert NoAllocation(calls[1..]) by {
        forall i | 0 <= i < |calls[1..]| ensures !calls[1..][i].TexImage2D? {
          assert calls[1..][i] == calls[i + 1];
        }
      }
      assert GL.Step(s, calls[0]).storage == s.storage;
      NoAllocationKeepsStorage(GL.Step(s, calls[0]), calls[1..]);
    }
  }

  /** A trace without a draw call leaves the list of draws as it was. */
  lemma {:induction false} NoDrawKeepsDraws(s: GL.GLState, calls: seq<GL.Call>)
    requires NoDraw(calls)
    ensures GL.Run(s, calls).draws == s.draws
    decreases |calls|
  {
    if calls != [] {
      assert NoDraw(calls[1..]) by {
        forall i | 0 <= i < |calls[1..]| ensures !calls[1..][i].DrawTriangleStrip? {
          assert calls[1..][i] == calls[i + 1];
        }
      }
      assert GL.Step(s, calls[0]).draws == s.draws;
      NoDrawKeepsDraws(GL.Step(s, calls[0]), calls[1..]);
    }
  }

  /** A raster upload only respecifies pixels: it never (re)allocates storage. */
  lemma RasterUploadKeepsStorage(s: GL.GLState, fb: FramebufferConfig, t: TextureInfo, mem: seq<bv8>, toVirtual: nat -> nat)
    requires RasterFault(fb).None? && SourceInBounds(fb, |mem|, toVirtual)
    ensures GL.Allocations(RasterUploadCalls(fb, t, mem, toVirtual)) == 0
    ensures GL.Run(s, RasterUploadCalls(fb, t, mem, toVirtual)).storage == s.storage
  {
    NoAllocationKeepsStorage(s, RasterUploadCalls(fb, t, mem, toVirtual));
  }

  /** Reconfiguring allocates the record's texture with the framebuffer's size and the table's internal format. */
  lemma ConfigureAllocates(s: GL.GLState, t: TextureInfo, fb: FramebufferConfig)
    requires IsKnownFormat(fb.colorFormat)
    ensures GL.Run(s, ConfigureCalls(t, fb)).storage
         == s.storage[t.handle := GL.Storage(fb.width, fb.height, FormatTable(fb.colorFormat).value.internalFormat)]
    ensures StorageAgrees(GL.Run(s, ConfigureCalls(t, fb)), ConfigureRecord(t, fb))
  {
    var c := ConfigureCalls(t, fb);
    var s1 := GL.Step(s, c[0]);
    var s2 := GL.Step(s1, c[1]);
    assert GL.Run(s1, c[1..]) == s2 by { assert c[1..][1..] == []; }
  }

  /** A colour fill makes the record's texture a single RGB pixel holding the fill colour. */
  lemma FillAllocatesOnePixel(s: GL.GLState, colorR: bv8, colorG: bv8, colorB: bv8, t: TextureInfo)
    ensures GL.Run(s, RendererOpenGL.LoadColorToActiveGLTexture(colorR, colorG, colorB, t)).storage
         == s.storage[t.handle := GL.Storage(1, 1, GL.RGB)]
    ensures RendererOpenGL.LoadColorToActiveGLTexture(colorR, colorG, colorB, t)[1].data == Some([colorR, colorG, colorB])
  {
    var c := RendererOpenGL.LoadColorToActiveGLTexture(colorR, colorG, colorB, t);
    var s1 := GL.Step(s, c[0]);
    var s2 := GL.Step(s1, c[1]);
    var s3 := GL.Step(s2, c[2]);
    assert GL.Run(s2, c[2..]) == s3 by { assert c[2..][1..] == []; }
    assert GL.Run(s1, c[1..]) == GL.Run(s2, c[2..]) by { assert c[1..][1..] == c[2..]; }
  }

  /** One screen draw renders the record's texture on the rotated quad and allocates nothing. */
  lemma DrawSingleScreenDraws(r: RendererOpenGL, s: GL.GLState, t: TextureInfo, x: real, y: real, w: real, h: real)
    ensures GL.Run(s, r.DrawSingleScreenRotated(t, x, y, w, h)).draws
         == s.draws + [GL.Drawn(t.handle, RotatedQuad(x, y, w, h))]
    ensures GL.Run(s, r.DrawSingleScreenRotated(t, x, y, w, h)).storage == s.storage
  {
    var c := r.DrawSingleScreenRotated(t, x, y, w, h);
    var s1 := GL.Step(s, c[0]);
    var s2 := GL.Step(s1, c[1]);
    var s3 := GL.Step(s2, c[2]);
    var s4 := GL.Step(s3, c[3]);
    assert GL.Run(s3, c[3..]) == s4 by { assert c[3..][1..] == []; }
    assert GL.Run(s2, c[2..]) == GL.Run(s3, c[3..]) by { assert c[2..][1..] == c[3..]; }
    assert GL.Run(s1, c[1..]) == GL.Run(s2, c[2..]) by { assert c[1..][1..] == c[2..]; }
  }

  /**
   * DrawScreens draws exactly two quads, the top screen's texture first and
   * the bottom screen's second, each at its layout rectangle, and touches no
   * texture storage.
   */
  lemma DrawScreensDrawsBothScreens(r: RendererOpenGL, s: GL.GLState, layout: FramebufferLayout)
    requires r.Valid() && layout.width > 0 && layout.height > 0
    ensures GL.Run(s, r.DrawScreensCalls(layout)).draws
         == s.draws + [GL.Drawn(r.textures[0].handle, ScreenQuad(layout.topScreen)),
                       GL.Drawn(r.textures[1].handle, ScreenQuad(layout.bottomScreen))]
    ensures GL.Run(s, r.DrawScreensCalls(layout)).storage == s.storage
  {
    var top := layout.topScreen;
    var bottom := layout.bottomScreen;
    var setup := [GL.Viewport(layout.width, layout.height),
                  GL.ClearColorBuffer,
                  GL.UseProgram(r.programId),
                  GL.UniformMatrix3x2(r.uniformModelviewMatrix, MakeOrthographicMatrix(layout.width as real, layout.height as real)),
                  GL.ActiveTexture0,
                  GL.Uniform1i(r.uniformColorTexture, 0)];
    var first := r.DrawSingleScreenRotated(r.textures[0], top.left as real, top.top as real, top.width as real, top.height as real);
    var second := r.DrawSingleScreenRotated(r.textures[1], bottom.left as real, bottom.top as real, bottom.width as real, bottom.height as real);
    assert r.DrawScreensCalls(layout) == setup + first + second;
    GL.RunAppend(s, setup + first, second);
    GL.RunAppend(s, setup, first);
    NoDrawKeepsDraws(s, setup);
    NoAllocationKeepsStorage(s, setup);
    var s1 := GL.Run(s, setup);
    DrawSingleScreenDraws(r, s1, r.textures[0], top.left as real, top.top as real, top.width as real, top.height as real);
    var s2 := GL.Run(s1, first);
    DrawSingleScreenDraws(r, s2, r.textures[1], bottom.left as real, bottom.top as real, bottom.width as real, bottom.height as real);
  }

  /** After a completed raster step the record has the framebuffer's width, height and format, and keeps its handle. */
  lemma RasterSyncsRecord(t: TextureInfo, fb: FramebufferConfig, fill: ColorFill)
    requires !fill.isEnabled && ScreenOutcome(t, fb, fill).Done?
    ensures NextRecord(t, fb, fill).handle == t.handle
    ensures NextRecord(t, fb, fill).width == fb.width && NextRecord(t, fb, fill).height == fb.height
    ensures NextRecord(t, fb, fill).format == fb.colorFormat
    ensures !NeedsRealloc(NextRecord(t, fb, fill), fb)
  {
    if NeedsRealloc(t, fb) {
      assert IsKnownFormat(fb.colorFormat);
    }
  }

  /**
   * A completed raster step allocates storage exactly when the record's
   * width, height or format differ from the framebuffer's, and at most once.
   */
  lemma RasterReallocatesIffShapeDiffers(t: TextureInfo, fb: FramebufferConfig, fill: ColorFill, mem: seq<bv8>, toVirtual: nat -> nat)
    requires !fill.isEnabled && ScreenOk(t, fb, fill, |mem|, toVirtual)
    ensures GL.Allocations(ScreenCalls(t, fb, fill, mem, toVirtual)) == (if NeedsRealloc(t, fb) then 1 else 0)
  {
    var configured := if NeedsRealloc(t, fb) then ConfigureRecord(t, fb) else t;
    var upload := RasterUploadCalls(fb, configured, mem, toVirtual);
    var setup := if NeedsRealloc(t, fb) then ConfigureCalls(t, fb) else [];
    RasterUploadKeepsStorage(GL.GLState(0, 0, 0, map[], map[], []), fb, configured, mem, toVirtual);
    GL.AllocationsAppend(setup, upload);
  }

  /**
   * Rendering the same raster framebuffer again completes, allocates
   * nothing, and leaves the record as the first frame left it.
   */
  lemma SecondRasterFrameSkipsRealloc(t: TextureInfo, fb: FramebufferConfig, fill: ColorFill, mem: seq<bv8>, toVirtual: nat -> nat)
    requires !fill.isEnabled && ScreenOk(t, fb, fill, |mem|, toVirtual)
    ensures ScreenOk(NextRecord(t, fb, fill), fb, fill, |mem|, toVirtual)
    ensures GL.Allocations(ScreenCalls(NextRecord(t, fb, fill), fb, fill, mem, toVirtual)) == 0
    ensures NextRecord(NextRecord(t, fb, fill), fb, fill) == NextRecord(t, fb, fill)
  {
    RasterSyncsRecord(t, fb, fill);
    RasterReallocatesIffShapeDiffers(NextRecord(t, fb, fill), fb, fill, mem, toVirtual);
  }

  /**
   * A colour fill completes, allocates exactly once, sets the record to 1x1
   * and keeps its handle, emulated format and transfer format and type.
   */
  lemma FillForcesOneByOne(t: TextureInfo, fb: FramebufferConfig, fill: ColorFill, s: GL.GLState, mem: seq<bv8>, toVirtual: nat -> nat)
    requires fill.isEnabled
    ensures ScreenOk(t, fb, fill, |mem|, toVirtual)
    ensures NextRecord(t, fb, fill).width == 1 && NextRecord(t, fb, fill).height == 1
    ensures NextRecord(t, fb, fill).handle == t.handle && NextRecord(t, fb, fill).format == t.format
    ensures NextRecord(t, fb, fill).glFormat == t.glFormat && NextRecord(t, fb, fill).glType == t.glType
    ensures GL.Allocations(ScreenCalls(t, fb, fill, mem, toVirtual)) == 1
    ensures GL.Run(s, ScreenCalls(t, fb, fill, mem, toVirtual)).storage == s.storage[t.handle := GL.Storage(1, 1, GL.RGB)]
  {
    FillAllocatesOnePixel(s, fill.colorR, fill.colorG, fill.colorB, t);
  }

  /** After a fill, any raster framebuffer that is not 1x1 forces a reallocation. */
  lemma RasterAfterFillReallocates(t: TextureInfo, fbFill: FramebufferConfig, fill: ColorFill, fb: FramebufferConfig)
    requires fill.isEnabled
    requires fb.width != 1 || fb.height != 1
    ensures NeedsRealloc(NextRecord(t, fbFill, fill), fb)
  {
  }

  /**
   * After a fill, a 1x1 raster framebuffer in the record's format does not
   * reallocate: the upload goes into the fill's 1x1 RGB storage, whatever
   * internal format the format table gives that framebuffer format.
   */
  lemma OneByOneRasterAfterFillKeepsFillStorage(t: TextureInfo, fbFill: FramebufferConfig, fill: ColorFill,
                                                fb: FramebufferConfig, noFill: ColorFill,
                                                s: GL.GLState, mem: seq<bv8>, toVirtual: nat -> nat)
    requires fill.isEnabled && !noFill.isEnabled
    requires fb.width == 1 && fb.height == 1 && fb.colorFormat == t.format
    requires ScreenOk(NextRecord(t, fbFill, fill), fb, noFill, |mem|, toVirtual)
    ensures !NeedsRealloc(NextRecord(t, fbFill, fill), fb)
    ensures StorageOf(GL.Run(GL.Run(s, ScreenCalls(t, fbFill, fill, mem, toVirtual)),
                             ScreenCalls(NextRecord(t, fbFill, fill), fb, noFill, mem, toVirtual)), t.handle)
         == Some(GL.Storage(1, 1, GL.RGB))
    ensures fb.colorFormat == RGBA8 ==> FormatTable(fb.colorFormat).value.internalFormat != GL.RGB
  {
    var filled := NextRecord(t, fbFill, fill);
    FillForcesOneByOne(t, fbFill, fill, s, mem, toVirtual);
    var afterFill := GL.Run(s, ScreenCalls(t, fbFill, fill, mem, toVirtual));
    assert ScreenCalls(filled, fb, noFill, mem, toVirtual) == RasterUploadCalls(fb, filled, mem, toVirtual);
    RasterUploadKeepsStorage(afterFill, fb, filled, mem, toVirtual);
    FormatTableEntries();
  }

  /**
   * After a completed raster step GL's storage for the record's texture
   * matches the record, provided a reallocation happened or it matched before.
   */
  lemma RasterStepKeepsStorageInStep(s: GL.GLState, t: TextureInfo, fb: FramebufferConfig, fill: ColorFill,
                                     mem: seq<bv8>, toVirtual: nat -> nat)
    requires !fill.isEnabled && ScreenOk(t, fb, fill, |mem|, toVirtual)
    requires NeedsRealloc(t, fb) || StorageAgrees(s, t)
    ensures StorageAgrees(GL.Run(s, ScreenCalls(t, fb, fill, mem, toVirtual)), NextRecord(t, fb, fill))
  {
    var configured := if NeedsRealloc(t, fb) then ConfigureRecord(t, fb) else t;
    var upload := RasterUploadCalls(fb, configured, mem, toVirtual);
    var setup := if NeedsRealloc(t, fb) then ConfigureCalls(t, fb) else [];
    assert ScreenCalls(t, fb, fill, mem, toVirtual) == setup + upload;
    GL.RunAppend(s, setup, upload);
    var s1 := GL.Run(s, setup);
    RasterUploadKeepsStorage(s1, fb, configured, mem, toVirtual);
    if NeedsRealloc(t, fb) {
      ConfigureAllocates(s, t, fb);
      RasterSyncsRecord(t, fb, fill);
      assert NextRecord(t, fb, fill) == ConfigureRecord(t, fb);
    } else {
      assert s1 == s;
      assert NextRecord(t, fb, fill) == t;
    }
  }

  /**
   * For a record whose format the texture was configured for, the upload's
   * transfer format and type are the table's, and GL's unpack rule with the
   * pixel stride as row length reads rows exactly SourcePitch apart.
   */
  lemma UploadUsesGLPitch(t: TextureInfo, fb: FramebufferConfig, fill: ColorFill)
    requires !fill.isEnabled && ScreenOutcome(t, fb, fill).Done?
    requires NeedsRealloc(t, fb) || Configured(t)
    ensures var configured := if NeedsRealloc(t, fb) then ConfigureRecord(t, fb) else t;
            Configured(configured) && configured.format == fb.colorFormat &&
            GL.UnpackRowPitch(configured.glFormat, configured.glType, fb.stride / Bpp(fb), fb.width, GL.UNPACK_ALIGNMENT)
              == SourcePitch(fb)
  {
    var configured := if NeedsRealloc(t, fb) then ConfigureRecord(t, fb) else t;
    if NeedsRealloc(t, fb) {
      assert IsKnownFormat(fb.colorFormat);
    }
    UploadPitchMatchesGL(configured, fb);
  }

  /** A frame's screen effects are the top screen's followed by the bottom screen's. */
  lemma ScreensCallsTopThenBottom(olds: seq<TextureInfo>, framebuffers: seq<FramebufferConfig>, lcd: nat -> ColorFill,
                                  mem: seq<bv8>, toVirtual: nat -> nat)
    requires |olds| == |framebuffers| == 2
    requires forall j :: 0 <= j < 2 ==> ScreenOk(olds[j], framebuffers[j], ColorFillOf(lcd, j), |mem|, toVirtual)
    ensures ScreensCalls(olds, framebuffers, lcd, mem, toVirtual, 2)
         == ScreenCalls(olds[0], framebuffers[0], ColorFillOf(lcd, 0), mem, toVirtual)
          + ScreenCalls(olds[1], framebuffers[1], ColorFillOf(lcd, 1), mem, toVirtual)
  {
    var a0 := ScreenCalls(olds[0], framebuffers[0], ColorFillOf(lcd, 0), mem, toVirtual);
    assert ScreensCalls(olds, framebuffers, lcd, mem, toVirtual, 1) == [] + a0;
    assert [] + a0 == a0;
  }

  /**
   * A frame of two raster screens, both completing, reallocates once per
   * screen whose record differs from its framebuffer.
   */
  lemma RasterFrameAllocations(olds: seq<TextureInfo>, framebuffers: seq<FramebufferConfig>, lcd: nat -> ColorFill,
                               mem: seq<bv8>, toVirtual: nat -> nat)
    requires |olds| == |framebuffers| == 2
    requires !ColorFillOf(lcd, 0).isEnabled && !ColorFillOf(lcd, 1).isEnabled
    requires forall j :: 0 <= j < 2 ==> ScreenOk(olds[j], framebuffers[j], ColorFillOf(lcd, j), |mem|, toVirtual)
    ensures GL.Allocations(ScreensCalls(olds, framebuffers, lcd, mem, toVirtual, 2))
         == (if NeedsRealloc(olds[0], framebuffers[0]) then 1 else 0) + (if NeedsRealloc(olds[1], framebuffers[1]) then 1 else 0)
  {
    assert ScreenOk(olds[0], framebuffers[0], ColorFillOf(lcd, 0), |mem|, toVirtual);
    assert ScreenOk(olds[1], framebuffers[1], ColorFillOf(lcd, 1), |mem|, toVirtual);
    ScreensCallsTopThenBottom(olds, framebuffers, lcd, mem, toVirtual);
    RasterReallocatesIffShapeDiffers(olds[0], framebuffers[0], ColorFillOf(lcd, 0), mem, toVirtual);
    RasterReallocatesIffShapeDiffers(olds[1], framebuffers[1], ColorFillOf(lcd, 1), mem, toVirtual);
    GL.AllocationsAppend(ScreenCalls(olds[0], framebuffers[0], ColorFillOf(lcd, 0), mem, toVirtual),
                         ScreenCalls(olds[1], framebuffers[1], ColorFillOf(lcd, 1), mem, toVirtual));
  }

  /** Rendering the same two raster framebuffers again completes and reallocates nothing. */
  lemma RasterFrameIdempotent(olds: seq<TextureInfo>, framebuffers: seq<FramebufferConfig>, lcd: nat -> ColorFill,
                              mem: seq<bv8>, toVirtual: nat -> nat, nexts: seq<TextureInfo>)
    requires |olds| == |framebuffers| == 2
    requires !ColorFillOf(lcd, 0).isEnabled && !ColorFillOf(lcd, 1).isEnabled
    requires forall j :: 0 <= j < 2 ==> ScreenOk(olds[j], framebuffers[j], ColorFillOf(lcd, j), |mem|, toVirtual)
    requires nexts == [NextRecord(olds[0], framebuffers[0], ColorFillOf(lcd, 0)),
                       NextRecord(olds[1], framebuffers[1], ColorFillOf(lcd, 1))]
    ensures forall j :: 0 <= j < 2 ==> ScreenOk(nexts[j], framebuffers[j], ColorFillOf(lcd, j), |mem|, toVirtual)
    ensures GL.Allocations(ScreensCalls(nexts, framebuffers, lcd, mem, toVirtual, 2)) == 0
  {
    assert ScreenOk(olds[0], framebuffers[0], ColorFillOf(lcd, 0), |mem|, toVirtual);
    assert ScreenOk(olds[1], framebuffers[1], ColorFillOf(lcd, 1), |mem|, toVirtual);
    RasterSyncsRecord(olds[0], framebuffers[0], ColorFillOf(lcd, 0));
    RasterSyncsRecord(olds[1], framebuffers[1], ColorFillOf(lcd, 1));
    SecondRasterFrameSkipsRealloc(olds[0], framebuffers[0], ColorFillOf(lcd, 0), mem, toVirtual);
    SecondRasterFrameSkipsRealloc(olds[1], framebuffers[1], ColorFillOf(lcd, 1), mem, toVirtual);
    RasterFrameAllocations(nexts, framebuffers, lcd, mem, toVirtual);
  }

  /** A frame completes exactly when neither screen's step is fatal; the top screen's fault wins. */
  lemma FrameOutcomeFirstFault(t0: TextureInfo, t1: TextureInfo, framebuffers: seq<FramebufferConfig>, lcd: nat -> ColorFill)
    requires |framebuffers| == 2
    ensures FrameOutcome(t0, t1, framebuffers, lcd).Done?
        <==> ScreenOutcome(t0, framebuffers[0], ColorFillOf(lcd, 0)).Done? && ScreenOutcome(t1, framebuffers[1], ColorFillOf(lcd, 1)).Done?
    ensures ScreenOutcome(t0, framebuffers[0], ColorFillOf(lcd, 0)).Fatal?
        ==> FrameOutcome(t0, t1, framebuffers, lcd) == ScreenOutcome(t0, framebuffers[0], ColorFillOf(lcd, 0))
  {
  }

  /** The top screen at its native size: 400x240 RGBA8 with a 1600-byte stride uploads rows 1600 bytes apart. */
  lemma TopScreenScenario(fb: FramebufferConfig)
    requires fb.width == 400 && fb.height == 240 && fb.stride == 1600 && fb.colorFormat == RGBA8
    ensures RasterFault(fb).None?
    ensures Bpp(fb) == 4 && fb.stride / Bpp(fb) == 400
    ensures SourcePitch(fb) == 1600
  {
  }

  /** A stride that is not a whole number of pixels, or whose pixel count is not a multiple of 4, is fatal. */
  lemma BadStrideScenarios(fb: FramebufferConfig)
    requires fb.colorFormat == RGBA8
    ensures fb.stride == 11 ==> RasterFault(fb) == Some(StrideNotPixelMultiple(11, 4))
    ensures fb.stride == 24 ==> RasterFault(fb) == Some(PixelStrideNotMultipleOf4(6))
  {
  }
}
