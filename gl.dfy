/**
 * The part of OpenGL 2.1 that the renderer relies on: the enumerants it passes,
 * the pixel-unpacking arithmetic of section 3.6 of the OpenGL 2.1 specification,
 * the calls the renderer issues (kept as an ordered trace) and a small
 * interpreter that replays a trace to obtain texture storage and draws.
 */
module GL {
  import opened Wrappers

  type GLenum = nat

  const RGB: GLenum := 0x1907
  const RGBA: GLenum := 0x1908
  const BGR: GLenum := 0x80E0
  const UNSIGNED_BYTE: GLenum := 0x1401
  const UNSIGNED_SHORT_4_4_4_4: GLenum := 0x8033
  const UNSIGNED_SHORT_5_5_5_1: GLenum := 0x8034
  const UNSIGNED_INT_8_8_8_8: GLenum := 0x8035
  const UNSIGNED_SHORT_5_6_5: GLenum := 0x8363

  /** GL_UNPACK_ALIGNMENT is never set by the renderer, so it keeps its initial value 4. */
  const UNPACK_ALIGNMENT: nat := 4

  /** Number of colour components of a pixel format (0 for formats outside this model). */
  function Components(format: GLenum): nat {
    if format == RGB || format == BGR then 3
    else if format == RGBA then 4
    else 0
  }

  /** Packed pixel types: all components of a pixel share one element. */
  predicate IsPackedType(pixelType: GLenum) {
    pixelType == UNSIGNED_SHORT_5_6_5 || pixelType == UNSIGNED_SHORT_5_5_5_1 ||
    pixelType == UNSIGNED_SHORT_4_4_4_4 || pixelType == UNSIGNED_INT_8_8_8_8
  }

  /** Number of components a packed type holds. */
  function PackedComponents(pixelType: GLenum): nat {
    if pixelType == UNSIGNED_SHORT_5_6_5 then 3
    else if IsPackedType(pixelType) then 4
    else 0
  }

  /** Size in bytes of one element of the given type (0 for types outside this model). */
  function ElementSize(pixelType: GLenum): nat {
    if pixelType == UNSIGNED_BYTE then 1
    else if pixelType == UNSIGNED_INT_8_8_8_8 then 4
    else if IsPackedType(pixelType) then 2
    else 0
  }

  /** A format/type pair GL accepts: a packed type must hold exactly the format's components. */
  predicate ValidTransfer(format: GLenum, pixelType: GLenum) {
    Components(format) > 0 && ElementSize(pixelType) > 0 &&
    (IsPackedType(pixelType) ==> PackedComponents(pixelType) == Components(format))
  }

  /** Elements per pixel group: one for packed types, one per component otherwise. */
  function GroupElements(format: GLenum, pixelType: GLenum): nat {
    if IsPackedType(pixelType) then 1 else Components(format)
  }

  /** Bytes occupied by one pixel in client memory. */
  function GroupBytes(format: GLenum, pixelType: GLenum): nat {
    GroupElements(format, pixelType) * ElementSize(pixelType)
  }

  /** Groups per row: GL_UNPACK_ROW_LENGTH when positive, otherwise the image width. */
  function RowGroups(rowLength: int, width: nat): nat {
    if rowLength > 0 then rowLength else width
  }

  function CeilDiv(x: nat, a: nat): nat
    requires a > 0
  {
    (x + a - 1) / a
  }

  /** The least multiple of the unpack alignment (4) that is at least x. */
  function AlignUp4(x: nat): (r: nat)
    ensures r % 4 == 0
    ensures x <= r < x + 4
  {
    CeilDiv(x, 4) * 4
  }

  /**
   * Distance in bytes between the first bytes of consecutive rows read by
   * glTexSubImage2D (section 3.6 of the OpenGL 2.1 specification, "Unpacking"):
   * with s the element size, n the elements per group, l the groups per row and
   * a the alignment, a row holds k = n*l elements when s >= a and
   * k = (a/s) * ceil(s*n*l / a) elements otherwise.
   */
  function UnpackRowPitch(format: GLenum, pixelType: GLenum, rowLength: int, width: nat, alignment: nat): nat
    requires ElementSize(pixelType) > 0 && alignment > 0
  {
    var s := ElementSize(pixelType);
    var n := GroupElements(format, pixelType);
    var l := RowGroups(rowLength, width);
    var k := if s >= alignment then n * l else (alignment / s) * CeilDiv(s * n * l, alignment);
    k * s
  }

  /** With the initial alignment of 4, a row is its packed size rounded up to a multiple of 4. */
  lemma UnpackRowPitchAligned(format: GLenum, pixelType: GLenum, rowLength: int, width: nat)
    requires ElementSize(pixelType) > 0
    ensures UnpackRowPitch(format, pixelType, rowLength, width, UNPACK_ALIGNMENT)
         == AlignUp4(GroupBytes(format, pixelType) * RowGroups(rowLength, width))
  {
    var s := ElementSize(pixelType);
    var n := GroupElements(format, pixelType);
    var l := RowGroups(rowLength, width);
    var x := n * l;
    assert s == 1 || s == 2 || s == 4;
    if s == 4 {
      assert GroupBytes(format, pixelType) * l == x * 4;
      assert UnpackRowPitch(format, pixelType, rowLength, width, 4) == x * 4;
    } else if s == 2 {
      assert GroupBytes(format, pixelType) * l == x * 2;
      assert UnpackRowPitch(format, pixelType, rowLength, width, 4) == 2 * CeilDiv(x * 2, 4) * 2;
    } else {
      assert GroupBytes(format, pixelType) * l == x;
      assert UnpackRowPitch(format, pixelType, rowLength, width, 4) == 4 * CeilDiv(x, 4);
    }
  }

  /** A vertex of a screen rectangle: position (x, y) and texture coordinate (u, v). */
  datatype Vertex = Vertex(x: real, y: real, u: real, v: real)

  /**
   * The effects the renderer issues, in order: the OpenGL calls that matter to
   * the frame and the calls into the host window and the profiler.
   * TexImage2D's data is None when the source passes a null pointer.
   */
  datatype Call =
    | MakeCurrent
    | BindTexture(texture: nat)
    | PixelStoreUnpackRowLength(rowLength: int)
    | TexImage2D(internalFormat: GLenum, width: int, height: int, format: GLenum, pixelType: GLenum, data: Option<seq<bv8>>)
    | TexSubImage2D(width: int, height: int, format: GLenum, pixelType: GLenum, pixels: seq<bv8>)
    | Viewport(width: int, height: int)
    | ClearColorBuffer
    | UseProgram(program: nat)
    | UniformMatrix3x2(location: nat, matrix: seq<real>)
    | ActiveTexture0
    | Uniform1i(location: nat, value: int)
    | BindArrayBuffer(buffer: nat)
    | BufferSubData(vertices: seq<Vertex>)
    | DrawTriangleStrip(first: nat, count: nat)
    | ProfilerFinishFrame
    | AggregatorAddFrame
    | PollEvents
    | SwapWindowBuffers
    | ProfilerBeginFrame

  /** The storage GL holds for one texture object. */
  datatype Storage = Storage(width: int, height: int, internalFormat: GLenum)

  /** One draw: the texture bound and the vertices in the bound array buffer. */
  datatype Drawn = Drawn(texture: nat, vertices: seq<Vertex>)

  /** The GL state the trace determines. */
  datatype GLState = GLState(
    boundTexture: nat,
    boundBuffer: nat,
    unpackRowLength: int,
    storage: map<nat, Storage>,
    bufferData: map<nat, seq<Vertex>>,
    draws: seq<Drawn>)

  function Step(s: GLState, c: Call): GLState {
    match c
    case BindTexture(t) => s.(boundTexture := t)
    case PixelStoreUnpackRowLength(l) => s.(unpackRowLength := l)
    case TexImage2D(internal, w, h, _, _, _) =>
      s.(storage := s.storage[s.boundTexture := Storage(w, h, internal)])
    case BindArrayBuffer(b) => s.(boundBuffer := b)
    case BufferSubData(vs) => s.(bufferData := s.bufferData[s.boundBuffer := vs])
    case DrawTriangleStrip(_, _) =>
      var vs := if s.boundBuffer in s.bufferData then s.bufferData[s.boundBuffer] else [];
      s.(draws := s.draws + [Drawn(s.boundTexture, vs)])
    case _ => s
  }

  /** Replays a trace from a state. */
  function Run(s: GLState, calls: seq<Call>): GLState
    decreases |calls|
  {
    if calls == [] then s else Run(Step(s, calls[0]), calls[1..])
  }

  lemma {:induction false} RunAppend(s: GLState, a: seq<Call>, b: seq<Call>)
    ensures Run(s, a + b) == Run(Run(s, a), b)
    decreases |a|
  {
    if a == [] {
      assert a + b == b;
    } else {
      assert (a + b)[0] == a[0];
      assert (a + b)[1..] == a[1..] + b;
      RunAppend(Step(s, a[0]), a[1..], b);
    }
  }

  /** Number of glTexImage2D calls, each of which (re)specifies a texture's storage. */
  function Allocations(calls: seq<Call>): nat
    decreases |calls|
  {
    if calls == [] then 0 else (if calls[0].TexImage2D? then 1 else 0) + Allocations(calls[1..])
  }

  lemma {:induction false} AllocationsAppend(a: seq<Call>, b: seq<Call>)
    ensures Allocations(a + b) == Allocations(a) + Allocations(b)
    decreases |a|
  {
    if a == [] {
      assert a + b == b;
    } else {
      assert (a + b)[0] == a[0];
      assert (a + b)[1..] == a[1..] + b;
      AllocationsAppend(a[1..], b);
    }
  }
}
