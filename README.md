# RendererOpenGL texture bookkeeping, in Dafny

This project models the frame loop of citra's OpenGL renderer
(`src/video_core/renderer_opengl/renderer_opengl.cpp` and `renderer_opengl.h`).
Each frame the renderer looks at the two emulated screens, top then bottom.
For each screen it either replaces the screen's texture by one pixel of the
LCD fill colour, or copies the emulated framebuffer into the texture. Before
the copy, the texture is reallocated when its width, height or pixel format
no longer match the framebuffer. The frame then ends the same way every time:
both textures are drawn on rotated quads under an orthographic projection,
the frame counter is incremented, and the frame is presented.

Model structure:

- `RendererOpenGL` (module `OpenGLRenderer`) is a class with the renderer's
  fields. The two `TextureInfo` records live in an `array` of length 2, as
  `std::array<TextureInfo, 2>` does (renderer_opengl.h:78).
- The static members stay static: `ConfigureFramebufferTexture`,
  `LoadFBToActiveGLTexture` and `LoadColorToActiveGLTexture`
  (renderer_opengl.h:52-53, 59-63). They receive the record by reference,
  read-only where the header says `const`.
- The effects of a frame are appended in order to the trace field `calls`:
  every GL call the modelled functions make, making the context current,
  polling the window's events and swapping its buffers, and the profiler's
  frame end, the aggregator's frame entry and the profiler's frame start.
  The calls that only fetch an object (listed under "## Left out") have no
  trace entry.
- `GL.Run` replays a trace and yields two things:
  - the storage each texture object holds (width, height, internal format);
  - the list of draws (texture bound, vertices in the bound buffer).
  Reallocation, storage and drawing properties are stated against it.
- `SwapBuffers` is proved against the per-screen specification functions
  `ScreenOutcome`, `NextRecord` and `ScreenCalls`. The lemmas in
  `RendererProofs` are proved about those functions.
- The GL unpacking rule of section 3.6.4 ("Unpacking") of the OpenGL 2.1 specification is
  written out in `GL.UnpackRowPitch`, with row length, alignment 4 and
  element size. `Ingest.UploadPitchMatchesGL` proves that it reads rows
  exactly `SourcePitch` bytes apart, which is what the model's row copy uses.

- `Surface.TextureInfo` is the six-field record of renderer_opengl.h:42-49.
  `Surface.NeedsRealloc` is the width, height and format comparison at
  renderer_opengl.cpp:98-100. `RasterReallocatesIffShapeDiffers` states what
  it decides.
- Two traces exist both as a method and as a function. `DrawScreens` issues
  its calls one statement at a time, as the source does, and
  `DrawScreensCalls` is the specification it is proved against.
  `LoadFBToActiveGLTexture` builds its image with the `CopyRows` loop, and
  `RasterUploadCalls` specifies the result through `UnpackedImage`. The
  lemmas about traces use the functions, since a lemma cannot call a method.

Behaviours kept exactly as the code has them:

- A colour fill sets the record to 1x1. It leaves `format`, `gl_format` and
  `gl_type` as they were, even though the texture's storage becomes 1x1 RGB
  (renderer_opengl.cpp:91-96).
- Consequence of the fill behaviour: if a fill is followed by a raster frame
  that is 1x1 and in the record's format, nothing is reallocated. The upload
  then goes into the fill's RGB storage
  (`OneByOneRasterAfterFillKeepsFillStorage`).
- `ConfigureFramebufferTexture` writes format, width and height before its
  format switch. An unknown format has therefore already changed those three
  fields when it fails.
- Stride 0 passes both stride assertions. GL then takes the row length from
  the width, padded to 4 bytes, so rows are not `k * stride` apart.
  `SourcePitch` models this.

## Model

| member | source | states |
|---|---|---|
| Formats.FormatTable | src/video_core/renderer_opengl/renderer_opengl.cpp:238-275 | defined exactly for the five emulated formats; each entry is a valid GL transfer whose pixel size equals the format's bytes per pixel and whose internal format has the transfer format's component count |
| Formats.FormatTableEntries | src/video_core/renderer_opengl/renderer_opengl.cpp:238-275 | the five rows of the switch (internal format, transfer format, type), and no entry for any other value |
| Gpu.BytesPerPixel | src/video_core/renderer_opengl/renderer_opengl.cpp:146 | defined exactly for the known formats, between 2 and 4 bytes |
| Surface.ConfigureRecord | src/video_core/renderer_opengl/renderer_opengl.cpp:229-275 | the record takes the framebuffer's width, height and format and keeps its handle; a known format makes it configured from the table; an unknown one leaves the transfer format and type as they were |
| Surface.ConfigureCalls | src/video_core/renderer_opengl/renderer_opengl.cpp:277-279 | configuring issues exactly one storage allocation |
| OpenGLRenderer.RendererOpenGL.ConfigureFramebufferTexture | src/video_core/renderer_opengl/renderer_opengl.cpp:229-280 | only the chosen record changes, to ConfigureRecord; it succeeds iff the format is known; an unknown format is the unimplemented fault and issues no GL call |
| RendererProofs.ConfigureAllocates | src/video_core/renderer_opengl/renderer_opengl.cpp:277-279 | after configuring, GL holds storage for the record's handle with the framebuffer's size and the table's internal format, in agreement with the new record |
| Ingest.SourceAddress | src/video_core/renderer_opengl/renderer_opengl.cpp:136-137 | active_fb 0 selects address_left1, anything else address_left2 |
| Ingest.RasterFault | src/video_core/renderer_opengl/renderer_opengl.cpp:146-154 | no fault iff the format is known and the stride is a multiple of 4 pixels' bytes; the fault returned is the first failing check in source order (unknown format, then stride not whole pixels, then pixel stride not a multiple of 4) |
| Ingest.StrideChecks | src/video_core/renderer_opengl/renderer_opengl.cpp:147-154 | the two assertions (whole pixels, pixel stride multiple of 4) together hold iff stride is a multiple of 4 * bpp |
| GL.AlignUp4 | src/video_core/renderer_opengl/renderer_opengl.cpp:152-154 | the least multiple of 4 not below its argument |
| GL.UnpackRowPitchAligned | src/video_core/renderer_opengl/renderer_opengl.cpp:152-157 | with alignment 4, GL's unpack row pitch is the row's byte length rounded up to a multiple of 4, for every element size |
| Ingest.UploadPitchMatchesGL | src/video_core/renderer_opengl/renderer_opengl.cpp:147-157 | for a record configured for the framebuffer's format, one GL pixel is one emulated pixel and GL's row pitch with row length = pixel stride is SourcePitch; a positive stride is the pitch itself |
| Ingest.RowsInBoundsLastRow | src/video_core/renderer_opengl/renderer_opengl.cpp:162-165 | all rows lie in memory iff the last one does, (rows - 1) * pitch after the source |
| Ingest.RowsInBoundsAt | src/video_core/renderer_opengl/renderer_opengl.cpp:162-165 | when all rows lie in memory, so does every row k, k * pitch after the source |
| Ingest.UnpackedImageLength | src/video_core/renderer_opengl/renderer_opengl.cpp:164-165 | the uploaded image holds height rows of width * bpp bytes |
| Ingest.UnpackedImageAt | src/video_core/renderer_opengl/renderer_opengl.cpp:164-165 | byte j of row k of the image is the memory byte at source + k * pitch + j |
| Ingest.UnpackedImageReadsOnlyRows | src/video_core/renderer_opengl/renderer_opengl.cpp:164-165 | the image depends only on the row bytes, never on the padding between rows |
| Ingest.CopyRows | src/video_core/renderer_opengl/renderer_opengl.cpp:164-165 | the row loop fills the buffer's prefix with UnpackedImage and leaves the rest untouched |
| Ingest.CopyRow | src/video_core/renderer_opengl/renderer_opengl.cpp:164-165 | one row lands at its offset and the bytes before and after it are kept |
| Ingest.CopyRowsStep | src/video_core/renderer_opengl/renderer_opengl.cpp:164-165 | copying the next row keeps the copied prefix plus the remaining rows equal to the whole image |
| OpenGLRenderer.RendererOpenGL.LoadFBToActiveGLTexture | src/video_core/renderer_opengl/renderer_opengl.cpp:133-169 | succeeds iff RasterFault finds nothing; a fault issues no GL call; success binds, sets the row length to the pixel stride, uploads UnpackedImage in the record's transfer format and type, then restores row length 0 and binding 0 |
| RendererProofs.RasterUploadKeepsStorage | src/video_core/renderer_opengl/renderer_opengl.cpp:159-168 | the upload allocates nothing and leaves every texture's storage as it was |
| OpenGLRenderer.RendererOpenGL.LoadColorToActiveGLTexture | src/video_core/renderer_opengl/renderer_opengl.cpp:176-185 | a fill issues exactly one storage allocation |
| RendererProofs.FillAllocatesOnePixel | src/video_core/renderer_opengl/renderer_opengl.cpp:176-185 | after a fill the record's texture is 1x1 RGB storage and the allocation carries the bytes r, g, b |
| Geometry.MakeOrthographicMatrix | src/video_core/renderer_opengl/renderer_opengl.cpp:58-66 | six entries, no shear, pixel (0,0) maps to (-1,1) and pixel (width,height) to (1,-1) |
| Geometry.OrthographicMapsPixels | src/video_core/renderer_opengl/renderer_opengl.cpp:58-66 | pixel (x,y) maps to (2x/width - 1, 1 - 2y/height) |
| Geometry.OrthographicRoundTrip | src/video_core/renderer_opengl/renderer_opengl.cpp:58-66 | the projection and its inverse undo each other in both directions |
| Geometry.RotatedQuad | src/video_core/renderer_opengl/renderer_opengl.cpp:286-291 | four vertices at (x,y), (x+w,y), (x,y+h), (x+w,y+h) in strip order |
| Geometry.RotatedQuadTexCoords | src/video_core/renderer_opengl/renderer_opengl.cpp:283-291 | each vertex's texture coordinate is its normalised position turned a quarter turn |
| Geometry.QuarterTurnIsRotation | src/video_core/renderer_opengl/renderer_opengl.cpp:283-291 | that turn keeps distances to the centre, has order four, and fixes only the centre |
| OpenGLRenderer.RendererOpenGL.DrawSingleScreenRotated | src/video_core/renderer_opengl/renderer_opengl.cpp:285-297 | drawing a screen allocates no storage |
| RendererProofs.DrawSingleScreenDraws | src/video_core/renderer_opengl/renderer_opengl.cpp:285-297 | drawing a screen adds exactly one draw, of the record's texture on the rotated quad, and leaves storage unchanged |
| OpenGLRenderer.RendererOpenGL.DrawScreens | src/video_core/renderer_opengl/renderer_opengl.cpp:302-325 | the frame counter goes up by one and the trace grows by the viewport, clear, program, projection, texture unit, and the two screen draws |
| RendererProofs.DrawScreensDrawsBothScreens | src/video_core/renderer_opengl/renderer_opengl.cpp:319-322 | exactly two draws, the top texture first and the bottom one second, each at its layout rectangle; no storage changes |
| OpenGLRenderer.RendererOpenGL.SwapScreen | src/video_core/renderer_opengl/renderer_opengl.cpp:83-111 | one screen's step: its outcome is ScreenOutcome; on success the record becomes NextRecord and the trace grows by ScreenCalls; the other record never changes |
| OpenGLRenderer.ScreensCallsExtend | src/video_core/renderer_opengl/renderer_opengl.cpp:82-112 | one more completed screen appends exactly that screen's effects to the frame's screen effects |
| OpenGLRenderer.ScreensCallsStep | src/video_core/renderer_opengl/renderer_opengl.cpp:82-112 | a trace holding the first n screens' effects, extended by screen n's, holds the first n + 1 screens' effects |
| OpenGLRenderer.FatalScreenEndsFrame | src/video_core/renderer_opengl/renderer_opengl.cpp:82-112 | a fatal step after completed ones is the whole frame's outcome |
| OpenGLRenderer.RendererOpenGL.RenderScreens | src/video_core/renderer_opengl/renderer_opengl.cpp:82-112 | the screen loop's outcome is FrameOutcome; when it completes both records are at NextRecord, both steps were in bounds and complete, and the trace grows by both screens' effects, top first |
| OpenGLRenderer.RendererOpenGL.SwapBuffers | src/video_core/renderer_opengl/renderer_opengl.cpp:79-128 | the outcome is FrameOutcome; a completed frame leaves both records at NextRecord, counts the frame, and issues make-current, both screens in order, DrawScreens and the present sequence; a completed frame keeps both records coherent (configured for their format, or never configured) |
| OpenGLRenderer.RendererOpenGL.constructor | src/video_core/renderer_opengl/renderer_opengl.cpp:69-72 | resolution 400 x 480; zeroed records with the given handles; no call issued; frame 0 |
| VideoCore.MaxWidth | src/video_core/renderer_opengl/renderer_opengl.cpp:70 | the larger of the two widths |
| Lcd.ColorFillAddress | src/video_core/renderer_opengl/renderer_opengl.cpp:85-87 | top screen 0x1ED02204, bottom screen 0x1ED02A04, word aligned |
| RendererProofs.RasterSyncsRecord | src/video_core/renderer_opengl/renderer_opengl.cpp:98-110 | after a completed raster step the record has the framebuffer's width, height and format, keeps its handle and needs no reallocation |
| RendererProofs.RasterReallocatesIffShapeDiffers | src/video_core/renderer_opengl/renderer_opengl.cpp:98-106 | a raster step allocates exactly once when width, height or format differ, and never otherwise |
| RendererProofs.SecondRasterFrameSkipsRealloc | src/video_core/renderer_opengl/renderer_opengl.cpp:98-110 | repeating the same raster framebuffer completes, allocates nothing and leaves the record unchanged |
| RendererProofs.FillForcesOneByOne | src/video_core/renderer_opengl/renderer_opengl.cpp:91-96 | a fill completes, allocates once, leaves 1x1 RGB storage, sets the record to 1x1 and keeps handle, format and transfer format and type |
| RendererProofs.RasterAfterFillReallocates | src/video_core/renderer_opengl/renderer_opengl.cpp:94-100 | after a fill any raster framebuffer that is not 1x1 reallocates |
| RendererProofs.OneByOneRasterAfterFillKeepsFillStorage | src/video_core/renderer_opengl/renderer_opengl.cpp:91-110 | after a fill, a 1x1 raster frame in the record's format does not reallocate, so the storage stays 1x1 RGB; for RGBA8 that differs from the table's internal format |
| OpenGLRenderer.ScreenStepKeepsCoherent | src/video_core/renderer_opengl/renderer_opengl.cpp:91-111 | each completed step keeps the record configured for its format, or never configured |
| RendererProofs.RasterStepKeepsStorageInStep | src/video_core/renderer_opengl/renderer_opengl.cpp:98-110 | after a raster step GL's storage matches the record whenever a reallocation happened or it matched before |
| RendererProofs.UploadUsesGLPitch | src/video_core/renderer_opengl/renderer_opengl.cpp:104-106 | the record handed to the upload is configured for the framebuffer's format and GL reads its rows SourcePitch apart |
| RendererProofs.ScreensCallsTopThenBottom | src/video_core/renderer_opengl/renderer_opengl.cpp:82-112 | a frame's screen effects are the top screen's followed by the bottom screen's |
| RendererProofs.RasterFrameAllocations | src/video_core/renderer_opengl/renderer_opengl.cpp:82-112 | a frame of two raster screens allocates once per screen whose record differs from its framebuffer |
| RendererProofs.RasterFrameIdempotent | src/video_core/renderer_opengl/renderer_opengl.cpp:82-112 | rendering the same two raster framebuffers again completes and allocates nothing |
| RendererProofs.FrameOutcomeFirstFault | src/video_core/renderer_opengl/renderer_opengl.cpp:82-112 | a frame completes iff neither screen faults; a fault on the top screen is the frame's fault |
| RendererProofs.TopScreenScenario | src/video_core/renderer_opengl/renderer_opengl.cpp:146-157 | 400x240 RGBA8 with stride 1600 passes the checks with pixel stride 400, and rows are read 1600 bytes apart |
| RendererProofs.BadStrideScenarios | src/video_core/renderer_opengl/renderer_opengl.cpp:146-154 | RGBA8 with stride 11 fails the whole-pixel check; stride 24 (6 pixels) fails the multiple-of-4 check |

## Left out

- InitOpenGLObjects, Init, SetWindow, ShutDown, UpdateFramerate and GetViewportExtent are not modelled. Shader compilation, vertex array setup and texture creation belong to GL initialisation, and the last four do no bookkeeping. The constructor instead takes the handles those functions would produce.
- GL_DEBUG and printOglError: error polling has no effect on the frame.
- LOG_TRACE: logging.
- The profiler, the timing aggregator and the window's PollEvents and SwapBuffers are foreign calls. Only their order is recorded, as trace entries.
- Emulated memory is a parameter (a byte sequence), and Memory::PhysicalToVirtualAddress is a function parameter. The LCD register file is a function parameter too: from a register address to a decoded colour fill. The raw bit layout of the register is not modelled.
- Floating point: coordinates and the projection are reals.
- Geometry.MakeOrthographicMatrix: requires width and height > 0. A zero-sized window divides by zero in the source.
- OpenGLRenderer.RendererOpenGL.DrawScreens: requires width and height > 0, because of the projection.
- OpenGLRenderer.RendererOpenGL.LoadFBToActiveGLTexture: requires the framebuffer's rows to lie inside emulated memory. The source does not check this (see its TODO at renderer_opengl.cpp:162-163).
- OpenGLRenderer.RendererOpenGL.SwapBuffers: says nothing about the records or the trace after a fatal outcome. The model treats UNIMPLEMENTED and ASSERT as fatal: the frame stops there and no later frame is modelled.
- UNIMPLEMENTED and ASSERT are defined outside renderer_opengl.cpp and renderer_opengl.h and are not part of this model. Both are modelled as a Fatal outcome that ends the frame.
- The window's GetFramebufferLayout (renderer_opengl.cpp:303) becomes the `layout` parameter of DrawScreens and SwapBuffers. It has no trace entry.
- GetProfilingManager, GetTimingResultsAggregator and GetPreviousFrameResults (renderer_opengl.cpp:116-120) only fetch objects and frame results for the profiler. They have no trace entry; the FinishFrame, AddFrame and BeginFrame calls they serve do.
- Both texture records start zeroed: handle (given), size 0x0, format 0, transfer format and type 0. The source leaves them uninitialised until GL initialisation assigns handles. With zeroed records, the first raster frame of a non-empty framebuffer always reallocates.
- Width and height are compared as mathematical integers. The `(GLsizei)` casts at renderer_opengl.cpp:98-99 never wrap for framebuffer dimensions, which are register fields far below 2^31.
- File gpu.h is not part of this model. The pixel-format values RGBA8..RGBA4 = 0..4 and their 4, 3, 2, 2, 2 bytes per pixel come from it, as do BytesPerPixel and the FramebufferConfig fields.
- Files lcd.h, hw.h and video_core.h are not part of this model. They supply the colour-fill register indices 0x81/0x281, VADDR_LCD 0x1ED02000, and the screen sizes 400x240 (top) and 320x240 (bottom). The comment at renderer_opengl.cpp:85 agrees with these addresses.
- The GL enumerant values come from the GL headers, which are not part of this model. They are used only as distinct tags.
- The layout's screen rectangles are stored as left, top, width and height. The source's GetWidth/GetHeight are taken as those fields.
- src/core/file_sys/file_romfs.cpp: unrelated RomFS stubs.
