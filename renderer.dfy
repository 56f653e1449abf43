/**
 * RendererOpenGL: the per-frame loop over the two screens, the texture
 * configuration and uploads it drives, and the drawing of both screens.
 * The renderer's GL effects and its calls into the window and the profiler
 * are appended, in order, to the trace `calls`.
 */
module OpenGLRenderer {
  import opened Wrappers
  import GL
  import opened Gpu
  import opened Lcd
  import VideoCore
  import opened Formats
  import opened Surface
  import opened Ingest
  import opened Geometry

  /** What ends every frame: profiler frame end, aggregation, window events and swap, profiler frame start. */
  const PresentCalls: seq<GL.Call> :=
    [GL.ProfilerFinishFrame, GL.AggregatorAddFrame, GL.PollEvents, GL.SwapWindowBuffers, GL.ProfilerBeginFrame]

  /** The colour-fill register of a screen, read through the LCD register file. */
  function ColorFillOf(lcd: nat -> ColorFill, screen: nat): ColorFill
    requires screen < 2
  {
    lcd(ColorFillAddress(screen))
  }

  /** Whether one screen's step of the frame completes or stops on a fatal condition. */
  function ScreenOutcome(t: TextureInfo, fb: FramebufferConfig, fill: ColorFill): Outcome {
    if fill.isEnabled then Done
    else if NeedsRealloc(t, fb) && !IsKnownFormat(fb.colorFormat) then Fatal(UnimplementedFormat(fb.colorFormat))
    else match RasterFault(fb)
      case Some(fault) => Fatal(fault)
      case None => Done
  }

  /** The record after one screen's step: forced to 1x1 by a fill, or synced to the framebuffer. */
  function NextRecord(t: TextureInfo, fb: FramebufferConfig, fill: ColorFill): TextureInfo {
    if fill.isEnabled then t.(width := 1, height := 1)
    else
      var configured := if NeedsRealloc(t, fb) then ConfigureRecord(t, fb) else t;
      configured.(width := fb.width, height := fb.height)
  }

  /** A raster screen's rows lie in emulated memory. */
  predicate ScreenInBounds(fb: FramebufferConfig, fill: ColorFill, memLength: nat, toVirtual: nat -> nat) {
    fill.isEnabled || SourceInBounds(fb, memLength, toVirtual)
  }

  predicate ScreenOk(t: TextureInfo, fb: FramebufferConfig, fill: ColorFill, memLength: nat, toVirtual: nat -> nat) {
    ScreenOutcome(t, fb, fill).Done? && ScreenInBounds(fb, fill, memLength, toVirtual)
  }

  /** The effects of one completed screen step. */
  function ScreenCalls(t: TextureInfo, fb: FramebufferConfig, fill: ColorFill, mem: seq<bv8>, toVirtual: nat -> nat): seq<GL.Call>
    requires ScreenOk(t, fb, fill, |mem|, toVirtual)
  {
    if fill.isEnabled then RendererOpenGL.LoadColorToActiveGLTexture(fill.colorR, fill.colorG, fill.colorB, t)
    else
      var configured := if NeedsRealloc(t, fb) then ConfigureRecord(t, fb) else t;
      (if NeedsRealloc(t, fb) then ConfigureCalls(t, fb) else []) + RasterUploadCalls(fb, configured, mem, toVirtual)
  }

  /**
   * The effects of the first n screen steps of a frame, when they all
   * complete (a step that does not complete contributes nothing here).
   */
  function ScreensCalls(olds: seq<TextureInfo>, framebuffers: seq<FramebufferConfig>, lcd: nat -> ColorFill,
                        mem: seq<bv8>, toVirtual: nat -> nat, n: nat): seq<GL.Call>
    requires n <= |olds| == |framebuffers| == 2
    decreases n
  {
    if n == 0 then [] else
      var fill := ColorFillOf(lcd, n - 1);
      ScreensCalls(olds, framebuffers, lcd, mem, toVirtual, n - 1)
      + (if ScreenOk(olds[n - 1], framebuffers[n - 1], fill, |mem|, toVirtual)
         then ScreenCalls(olds[n - 1], framebuffers[n - 1], fill, mem, toVirtual) else [])
  }

  /** The loop step of SwapBuffers: one more completed screen appends that screen's effects. */
  lemma ScreensCallsExtend(olds: seq<TextureInfo>, framebuffers: seq<FramebufferConfig>, lcd: nat -> ColorFill,
                           mem: seq<bv8>, toVirtual: nat -> nat, n: nat)
    requires n < |olds| == |framebuffers| == 2
    requires ScreenOk(olds[n], framebuffers[n], ColorFillOf(lcd, n), |mem|, toVirtual)
    ensures ScreensCalls(olds, framebuffers, lcd, mem, toVirtual, n + 1)
         == ScreensCalls(olds, framebuffers, lcd, mem, toVirtual, n)
          + ScreenCalls(olds[n], framebuffers[n], ColorFillOf(lcd, n), mem, toVirtual)
  {
  }

  /** The trace after one more completed screen step holds the first n + 1 steps' effects. */
  lemma ScreensCallsStep(base: seq<GL.Call>, before: seq<GL.Call>, after: seq<GL.Call>,
                         olds: seq<TextureInfo>, framebuffers: seq<FramebufferConfig>, lcd: nat -> ColorFill,
                         mem: seq<bv8>, toVirtual: nat -> nat, n: nat)
    requires n < |olds| == |framebuffers| == 2
    requires ScreenOk(olds[n], framebuffers[n], ColorFillOf(lcd, n), |mem|, toVirtual)
    requires before == base + ScreensCalls(olds, framebuffers, lcd, mem, toVirtual, n)
    requires after == before + ScreenCalls(olds[n], framebuffers[n], ColorFillOf(lcd, n), mem, toVirtual)
    ensures after == base + ScreensCalls(olds, framebuffers, lcd, mem, toVirtual, n + 1)
  {
    ScreensCallsExtend(olds, framebuffers, lcd, mem, toVirtual, n);
  }

  /** A fatal step at screen n, after n completed steps, is the frame's outcome. */
  lemma FatalScreenEndsFrame(olds: seq<TextureInfo>, framebuffers: seq<FramebufferConfig>, lcd: nat -> ColorFill, n: nat)
    requires n < |olds| == |framebuffers| == 2
    requires n > 0 ==> ScreenOutcome(olds[0], framebuffers[0], ColorFillOf(lcd, 0)).Done?
    requires ScreenOutcome(olds[n], framebuffers[n], ColorFillOf(lcd, n)).Fatal?
    ensures FrameOutcome(olds[0], olds[1], framebuffers, lcd) == ScreenOutcome(olds[n], framebuffers[n], ColorFillOf(lcd, n))
  {
  }

  /** Every completed screen step keeps the record invariant: configured, or never configured. */
  lemma ScreenStepKeepsCoherent(t: TextureInfo, fb: FramebufferConfig, fill: ColorFill)
    requires Coherent(t) && ScreenOutcome(t, fb, fill).Done?
    ensures Coherent(NextRecord(t, fb, fill))
  {
    if !fill.isEnabled && NeedsRealloc(t, fb) {
      assert IsKnownFormat(fb.colorFormat);
      assert Configured(ConfigureRecord(t, fb));
    }
  }

  /** A frame stops at the first screen whose step is fatal. */
  function FrameOutcome(t0: TextureInfo, t1: TextureInfo, framebuffers: seq<FramebufferConfig>, lcd: nat -> ColorFill): Outcome
    requires |framebuffers| == 2
  {
    var first := ScreenOutcome(t0, framebuffers[0], ColorFillOf(lcd, 0));
    if first.Fatal? then first else ScreenOutcome(t1, framebuffers[1], ColorFillOf(lcd, 1))
  }

  class RendererOpenGL {
    var resolutionWidth: int
    var resolutionHeight: int
    var programId: nat
    var vertexBufferHandle: nat
    var uniformModelviewMatrix: nat
    var uniformColorTexture: nat
    /** The texture records of the top (0) and bottom (1) screens. */
    var textures: array<TextureInfo>
    /** Frames drawn so far. */
    var currentFrame: int
    /** Every effect issued so far, oldest first. */
    var calls: seq<GL.Call>

    ghost predicate Valid()
      reads this
    {
      textures.Length == 2
    }

    /** Both records keep the record invariant. */
    ghost predicate RecordsCoherent()
      reads this, textures
      requires Valid()
    {
      Coherent(textures[0]) && Coherent(textures[1])
    }

    /**
     * Construction followed by the handle assignment of the GL setup: the
     * resolution fits both screens side by side vertically, and the records
     * start zeroed, with no storage, so the first raster frame configures them.
     */
    constructor (topTexture: nat, bottomTexture: nat, program: nat, vertexBuffer: nat,
                 modelviewMatrixLocation: nat, colorTextureLocation: nat)
      ensures Valid() && fresh(textures) && RecordsCoherent()
      ensures resolutionWidth == 400 && resolutionHeight == 480
      ensures textures[0] == TextureInfo(topTexture, 0, 0, 0, 0, 0)
      ensures textures[1] == TextureInfo(bottomTexture, 0, 0, 0, 0, 0)
      ensures programId == program && vertexBufferHandle == vertexBuffer
      ensures uniformModelviewMatrix == modelviewMatrixLocation && uniformColorTexture == colorTextureLocation
      ensures currentFrame == 0 && calls == []
    {
      resolutionWidth := VideoCore.MaxWidth(VideoCore.SCREEN_TOP_WIDTH, VideoCore.SCREEN_BOTTOM_WIDTH);
      resolutionHeight := VideoCore.SCREEN_TOP_HEIGHT + VideoCore.SCREEN_BOTTOM_HEIGHT;
      programId := program;
      vertexBufferHandle := vertexBuffer;
      uniformModelviewMatrix := modelviewMatrixLocation;
      uniformColorTexture := colorTextureLocation;
      textures := new TextureInfo[] [TextureInfo(topTexture, 0, 0, 0, 0, 0), TextureInfo(bottomTexture, 0, 0, 0, 0, 0)];
      currentFrame := 0;
      calls := [];
    }

    /**
     * Reallocates one record's texture for a framebuffer: writes format, width
     * and height, then the transfer format and type from the format table, and
     * allocates storage without data. An unknown format is fatal. No other
     * record changes.
     */
    static method ConfigureFramebufferTexture(textures: array<TextureInfo>, i: nat, fb: FramebufferConfig)
      returns (r: Outcome, issued: seq<GL.Call>)
      requires i < textures.Length
      modifies textures
      ensures textures[i] == ConfigureRecord(old(textures[i]), fb)
      ensures forall j :: 0 <= j < textures.Length && j != i ==> textures[j] == old(textures[j])
      ensures r.Done? <==> IsKnownFormat(fb.colorFormat)
      ensures r.Fatal? ==> r.fault == UnimplementedFormat(fb.colorFormat) && issued == []
      ensures r.Done? ==> issued == ConfigureCalls(old(textures[i]), fb)
    {
      textures[i] := textures[i].(format := fb.colorFormat, width := fb.width, height := fb.height);
      var info := FormatTable(fb.colorFormat);
      if info.None? {
        return Fatal(UnimplementedFormat(fb.colorFormat)), [];
      }
      textures[i] := textures[i].(glFormat := info.value.format, glType := info.value.pixelType);
      var texture := textures[i];
      issued := [GL.BindTexture(texture.handle),
                 GL.TexImage2D(info.value.internalFormat, texture.width, texture.height,
                               texture.glFormat, texture.glType, None)];
      r := Done;
    }

    /**
     * Uploads a raster framebuffer into the record's texture. The record is
     * only read. Fails fatally before any GL call unless the stride is a whole
     * number of pixels and that number is a multiple of 4; otherwise the image
     * uploaded is the framebuffer's rows as GL unpacks them.
     */
    static method LoadFBToActiveGLTexture(fb: FramebufferConfig, texture: TextureInfo, mem: seq<bv8>, toVirtual: nat -> nat)
      returns (r: Outcome, issued: seq<GL.Call>)
      requires SourceInBounds(fb, |mem|, toVirtual)
      ensures r.Done? <==> RasterFault(fb).None?
      ensures r.Fatal? ==> r.fault == RasterFault(fb).value && issued == []
      ensures r.Done? ==> issued == RasterUploadCalls(fb, texture, mem, toVirtual)
    {
      var vaddr := toVirtual(SourceAddress(fb));
      var bytesPerPixel := BytesPerPixel(fb.colorFormat);
      if bytesPerPixel.None? {
        return Fatal(UnimplementedFormat(fb.colorFormat)), [];
      }
      var bpp := bytesPerPixel.value;
      var pixelStride := fb.stride / bpp;
      if pixelStride * bpp != fb.stride {
        return Fatal(StrideNotPixelMultiple(fb.stride, bpp)), [];
      }
      if pixelStride % 4 != 0 {
        return Fatal(PixelStrideNotMultipleOf4(pixelStride)), [];
      }
      var rowBytes := fb.width * bpp;
      var pitch := if pixelStride > 0 then fb.stride else GL.AlignUp4(rowBytes);
      var image := new bv8[fb.height * rowBytes];
      UnpackedImageLength(mem, vaddr, pitch, rowBytes, fb.height);
      CopyRows(mem, vaddr, pitch, rowBytes, fb.height, image);
      assert image[..] == image[..fb.height * rowBytes];
      issued := [GL.BindTexture(texture.handle),
                 GL.PixelStoreUnpackRowLength(pixelStride),
                 GL.TexSubImage2D(fb.width, fb.height, texture.glFormat, texture.glType, image[..]),
                 GL.PixelStoreUnpackRowLength(0),
                 GL.BindTexture(0)];
      r := Done;
    }

    /** Replaces the record's texture by a single RGB pixel of the fill colour; the record is only read. */
    static function LoadColorToActiveGLTexture(colorR: bv8, colorG: bv8, colorB: bv8, texture: TextureInfo): (issued: seq<GL.Call>)
      ensures GL.Allocations(issued) == 1
    {
      var issued := [GL.BindTexture(texture.handle),
                     GL.TexImage2D(GL.RGB, 1, 1, GL.RGB, GL.UNSIGNED_BYTE, Some([colorR, colorG, colorB])),
                     GL.BindTexture(0)];
      assert GL.Allocations(issued[2..]) == 0 by { assert issued[2..][1..] == []; }
      assert issued[1..][1..] == issued[2..];
      issued
    }

    /** Draws one screen's texture as the rotated quad at (x, y) of size w x h; the record is only read. */
    function DrawSingleScreenRotated(texture: TextureInfo, x: real, y: real, w: real, h: real): (issued: seq<GL.Call>)
      reads this
      ensures GL.Allocations(issued) == 0
    {
      var issued := [GL.BindTexture(texture.handle),
                     GL.BindArrayBuffer(vertexBufferHandle),
                     GL.BufferSubData(RotatedQuad(x, y, w, h)),
                     GL.DrawTriangleStrip(0, 4)];
      assert GL.Allocations(issued[3..]) == 0 by { assert issued[3..][1..] == []; }
      assert GL.Allocations(issued[2..]) == 0 by { assert issued[2..][1..] == issued[3..]; }
      assert GL.Allocations(issued[1..]) == 0 by { assert issued[1..][1..] == issued[2..]; }
      issued
    }

    /** The effects of DrawScreens for a window layout, given the current records. */
    function DrawScreensCalls(layout: FramebufferLayout): seq<GL.Call>
      reads this, textures
      requires Valid() && layout.width > 0 && layout.height > 0
    {
      var top := layout.topScreen;
      var bottom := layout.bottomScreen;
      [GL.Viewport(layout.width, layout.height),
       GL.ClearColorBuffer,
       GL.UseProgram(programId),
       GL.UniformMatrix3x2(uniformModelviewMatrix, MakeOrthographicMatrix(layout.width as real, layout.height as real)),
       GL.ActiveTexture0,
       GL.Uniform1i(uniformColorTexture, 0)]
      + DrawSingleScreenRotated(textures[0], top.left as real, top.top as real, top.width as real, top.height as real)
      + DrawSingleScreenRotated(textures[1], bottom.left as real, bottom.top as real, bottom.width as real, bottom.height as real)
    }

    /** Draws the top screen, then the bottom screen, and counts the frame. */
    method DrawScreens(layout: FramebufferLayout)
      requires Valid() && layout.width > 0 && layout.height > 0
      modifies this`calls, this`currentFrame
      ensures currentFrame == old(currentFrame) + 1
      ensures calls == old(calls) + DrawScreensCalls(layout)
    {
      var top := layout.topScreen;
      var bottom := layout.bottomScreen;
      calls := calls + [GL.Viewport(layout.width, layout.height), GL.ClearColorBuffer, GL.UseProgram(programId)];
      var orthoMatrix := MakeOrthographicMatrix(layout.width as real, layout.height as real);
      calls := calls + [GL.UniformMatrix3x2(uniformModelviewMatrix, orthoMatrix)];
      calls := calls + [GL.ActiveTexture0, GL.Uniform1i(uniformColorTexture, 0)];
      calls := calls + DrawSingleScreenRotated(textures[0], top.left as real, top.top as real, top.width as real, top.height as real);
      calls := calls + DrawSingleScreenRotated(textures[1], bottom.left as real, bottom.top as real, bottom.width as real, bottom.height as real);
      currentFrame := currentFrame + 1;
    }

    /**
     * One screen's step of SwapBuffers: a fill uploads the colour and makes
     * the record 1x1; a raster frame reconfigures the texture when needed,
     * uploads the framebuffer and syncs the record's size. Only record i and
     * the trace change.
     */
    method SwapScreen(i: nat, framebuffer: FramebufferConfig, colorFill: ColorFill, mem: seq<bv8>, toVirtual: nat -> nat)
      returns (r: Outcome)
      requires Valid() && i < 2
      requires ScreenInBounds(framebuffer, colorFill, |mem|, toVirtual)
      modifies this`calls, textures
      ensures r == ScreenOutcome(old(textures[i]), framebuffer, colorFill)
      ensures textures[1 - i] == old(textures[1 - i])
      ensures r.Done? ==> textures[i] == NextRecord(old(textures[i]), framebuffer, colorFill)
      ensures r.Done? ==> calls == old(calls) + ScreenCalls(old(textures[i]), framebuffer, colorFill, mem, toVirtual)
    {
      if colorFill.isEnabled {
        calls := calls + LoadColorToActiveGLTexture(colorFill.colorR, colorFill.colorG, colorFill.colorB, textures[i]);
        textures[i] := textures[i].(width := 1, height := 1);
        return Done;
      }
      if NeedsRealloc(textures[i], framebuffer) {
        var configured, issued := ConfigureFramebufferTexture(textures, i, framebuffer);
        calls := calls + issued;
        if configured.Fatal? {
          return configured;
        }
      }
      var loaded, issued := LoadFBToActiveGLTexture(framebuffer, textures[i], mem, toVirtual);
      if loaded.Fatal? {
        return loaded;
      }
      calls := calls + issued;
      textures[i] := textures[i].(width := framebuffer.width, height := framebuffer.height);
      r := Done;
    }

    /**
     * The screen loop of SwapBuffers, top screen then bottom screen. A fatal
     * step ends the loop; a completed loop leaves both records at NextRecord
     * and has issued both screens' effects in order.
     */
    method RenderScreens(framebuffers: seq<FramebufferConfig>, lcd: nat -> ColorFill, mem: seq<bv8>,
                         toVirtual: nat -> nat) returns (r: Outcome)
      requires Valid() && |framebuffers| == 2
      requires forall i :: 0 <= i < 2 ==> ScreenInBounds(framebuffers[i], ColorFillOf(lcd, i), |mem|, toVirtual)
      modifies this`calls, textures
      ensures r == FrameOutcome(old(textures[0]), old(textures[1]), framebuffers, lcd)
      ensures r.Done? ==> textures[0] == NextRecord(old(textures[0]), framebuffers[0], ColorFillOf(lcd, 0))
      ensures r.Done? ==> textures[1] == NextRecord(old(textures[1]), framebuffers[1], ColorFillOf(lcd, 1))
      ensures r.Done? ==> ScreenOk(old(textures[0]), framebuffers[0], ColorFillOf(lcd, 0), |mem|, toVirtual)
      ensures r.Done? ==> ScreenOk(old(textures[1]), framebuffers[1], ColorFillOf(lcd, 1), |mem|, toVirtual)
      ensures r.Done? ==> calls == old(calls) + ScreensCalls(old(textures[..]), framebuffers, lcd, mem, toVirtual, 2)
    {
      ghost var olds := textures[..];
      assert olds[0] == old(textures[0]) && olds[1] == old(textures[1]);
      var i := 0;
      while i < 2
        invariant 0 <= i <= 2
        invariant i > 0 ==> ScreenOk(olds[0], framebuffers[0], ColorFillOf(lcd, 0), |mem|, toVirtual)
        invariant i > 1 ==> ScreenOk(olds[1], framebuffers[1], ColorFillOf(lcd, 1), |mem|, toVirtual)
        invariant textures[0] == (if i > 0 then NextRecord(olds[0], framebuffers[0], ColorFillOf(lcd, 0)) else olds[0])
        invariant textures[1] == (if i > 1 then NextRecord(olds[1], framebuffers[1], ColorFillOf(lcd, 1)) else olds[1])
        invariant calls == old(calls) + ScreensCalls(olds, framebuffers, lcd, mem, toVirtual, i)
      {
        assert textures[i] == olds[i];
        ghost var before := calls;
        r := SwapScreen(i, framebuffers[i], lcd(ColorFillAddress(i)), mem, toVirtual);
        if r.Fatal? {
          FatalScreenEndsFrame(olds, framebuffers, lcd, i);
          return;
        }
        ScreensCallsStep(old(calls), before, calls, olds, framebuffers, lcd, mem, toVirtual, i);
        i := i + 1;
      }
      r := Done;
    }

    /**
     * Renders one frame: makes the context current, runs the screen loop,
     * draws both screens and presents the frame. A fatal condition stops the
     * frame.
     */
    method SwapBuffers(framebuffers: seq<FramebufferConfig>, lcd: nat -> ColorFill, mem: seq<bv8>,
                       toVirtual: nat -> nat, layout: FramebufferLayout) returns (r: Outcome)
      requires Valid() && RecordsCoherent() && |framebuffers| == 2
      requires layout.width > 0 && layout.height > 0
      requires forall i :: 0 <= i < 2 ==> ScreenInBounds(framebuffers[i], ColorFillOf(lcd, i), |mem|, toVirtual)
      modifies this`calls, this`currentFrame, textures
      ensures r == FrameOutcome(old(textures[0]), old(textures[1]), framebuffers, lcd)
      ensures r.Done? ==> textures[0] == NextRecord(old(textures[0]), framebuffers[0], ColorFillOf(lcd, 0))
      ensures r.Done? ==> textures[1] == NextRecord(old(textures[1]), framebuffers[1], ColorFillOf(lcd, 1))
      ensures r.Done? ==> RecordsCoherent()
      ensures r.Done? ==> currentFrame == old(currentFrame) + 1
      ensures r.Done? ==> calls == old(calls) + [GL.MakeCurrent]
                                 + ScreensCalls(old(textures[..]), framebuffers, lcd, mem, toVirtual, 2)
                                 + DrawScreensCalls(layout) + PresentCalls
    {
      calls := calls + [GL.MakeCurrent];
      r := RenderScreens(framebuffers, lcd, mem, toVirtual);
      if r.Fatal? {
        return;
      }
      ScreenStepKeepsCoherent(old(textures[0]), framebuffers[0], ColorFillOf(lcd, 0));
      ScreenStepKeepsCoherent(old(textures[1]), framebuffers[1], ColorFillOf(lcd, 1));
      DrawScreens(layout);
      calls := calls + PresentCalls;
    }
  }
}
