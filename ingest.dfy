/**
 * Framebuffer ingest: where a screen's pixels come from in emulated memory,
 * the stride conditions the upload asserts, and which bytes glTexSubImage2D
 * reads (row k starts k row pitches after the source address).
 */
module Ingest {
  import opened Wrappers
  import GL
  import opened Gpu
  import opened Formats
  import opened Surface

  /** The framebuffer address in use: address_left1 when active_fb is 0, address_left2 otherwise. */
  function SourceAddress(fb: FramebufferConfig): (addr: nat)
    ensures fb.activeFb == 0 ==> addr == fb.addressLeft1
    ensures fb.activeFb != 0 ==> addr == fb.addressLeft2
  {
    if fb.activeFb == 0 then fb.addressLeft1 else fb.addressLeft2
  }

  /** Bytes per pixel of a framebuffer whose format is known. */
  function Bpp(fb: FramebufferConfig): nat
    requires IsKnownFormat(fb.colorFormat)
  {
    BytesPerPixel(fb.colorFormat).value
  }

  /**
   * The fatal checks of the raster upload, in the source's order: the format
   * must have a size, the stride must be a whole number of pixels, and that
   * pixel stride must be a multiple of 4. Together they say that the stride is
   * a multiple of four pixels.
   */
  function RasterFault(fb: FramebufferConfig): (r: Option<Fault>)
    ensures r.None? <==> IsKnownFormat(fb.colorFormat) && fb.stride % (4 * Bpp(fb)) == 0
    ensures !IsKnownFormat(fb.colorFormat) ==> r == Some(UnimplementedFormat(fb.colorFormat))
    ensures IsKnownFormat(fb.colorFormat) && fb.stride % Bpp(fb) != 0
         ==> r == Some(StrideNotPixelMultiple(fb.stride, Bpp(fb)))
    ensures IsKnownFormat(fb.colorFormat) && fb.stride % Bpp(fb) == 0 && (fb.stride / Bpp(fb)) % 4 != 0
         ==> r == Some(PixelStrideNotMultipleOf4(fb.stride / Bpp(fb)))
  {
    match BytesPerPixel(fb.colorFormat)
    case None => Some(UnimplementedFormat(fb.colorFormat))
    case Some(bpp) =>
      var pixelStride := fb.stride / bpp;
      StrideChecks(fb.stride, bpp);
      if pixelStride * bpp != fb.stride then Some(StrideNotPixelMultiple(fb.stride, bpp))
      else if pixelStride % 4 != 0 then Some(PixelStrideNotMultipleOf4(pixelStride))
      else None
  }

  lemma StrideChecks(stride: nat, bpp: nat)
    requires 2 <= bpp <= 4
    ensures ((stride / bpp) * bpp == stride && (stride / bpp) % 4 == 0) <==> stride % (4 * bpp) == 0
    ensures stride % (4 * bpp) == 0 ==> stride % 4 == 0
  {
    if bpp == 2 {
      StrideChecksBy2(stride);
    } else if bpp == 3 {
      StrideChecksBy3(stride);
    } else {
      StrideChecksBy4(stride);
    }
  }

  lemma StrideChecksBy2(stride: nat)
    ensures ((stride / 2) * 2 == stride && (stride / 2) % 4 == 0) <==> stride % 8 == 0
    ensures stride % 8 == 0 ==> stride % 4 == 0
  {
    var p := stride / 2;
    if stride % 8 == 0 {
      var q := stride / 8;
      assert stride == 8 * q;
      assert p == 4 * q;
    }
    if p * 2 == stride && p % 4 == 0 {
      var q := p / 4;
      assert stride == 8 * q;
    }
  }

  lemma StrideChecksBy3(stride: nat)
    ensures ((stride / 3) * 3 == stride && (stride / 3) % 4 == 0) <==> stride % 12 == 0
    ensures stride % 12 == 0 ==> stride % 4 == 0
  {
    var p := stride / 3;
    if stride % 12 == 0 {
      var q := stride / 12;
      assert stride == 12 * q;
      assert p == 4 * q;
    }
    if p * 3 == stride && p % 4 == 0 {
      var q := p / 4;
      assert stride == 12 * q;
    }
  }

  lemma StrideChecksBy4(stride: nat)
    ensures ((stride / 4) * 4 == stride && (stride / 4) % 4 == 0) <==> stride % 16 == 0
    ensures stride % 16 == 0 ==> stride % 4 == 0
  {
    var p := stride / 4;
    if stride % 16 == 0 {
      var q := stride / 16;
      assert stride == 16 * q;
      assert p == 4 * q;
    }
    if p * 4 == stride && p % 4 == 0 {
      var q := p / 4;
      assert stride == 16 * q;
    }
  }

  /**
   * Distance in emulated memory between the starts of consecutive rows: the
   * stride when the pixel stride is positive; for a zero stride GL falls back
   * to the image width, padded to the unpack alignment.
   */
  function SourcePitch(fb: FramebufferConfig): nat
    requires IsKnownFormat(fb.colorFormat)
  {
    if fb.stride / Bpp(fb) > 0 then fb.stride else GL.AlignUp4(fb.width * Bpp(fb))
  }

  /**
   * The rows, rowBytes bytes each, the first at src and each next one pitch
   * bytes further, all lie inside memory of the given length.
   */
  predicate RowsInBounds(memLength: nat, src: nat, pitch: nat, rowBytes: nat, rows: nat)
    decreases rows
  {
    rows == 0 || (src + rowBytes <= memLength && RowsInBounds(memLength, src + pitch, pitch, rowBytes, rows - 1))
  }

  /**
   * The image glTexSubImage2D reads: `rows` rows of rowBytes bytes, the first
   * at src and each next one pitch bytes further, packed one after another.
   */
  function UnpackedImage(mem: seq<bv8>, src: nat, pitch: nat, rowBytes: nat, rows: nat): seq<bv8>
    requires RowsInBounds(|mem|, src, pitch, rowBytes, rows)
    decreases rows
  {
    if rows == 0 then [] else mem[src .. src + rowBytes] + UnpackedImage(mem, src + pitch, pitch, rowBytes, rows - 1)
  }

  /** Row k of a framebuffer: rowBytes bytes starting k pitches after src (empty past the end of memory). */
  function Row(mem: seq<bv8>, src: nat, pitch: nat, rowBytes: nat, k: nat): seq<bv8> {
    var start := src + k * pitch;
    if start + rowBytes <= |mem| then mem[start .. start + rowBytes] else []
  }

  lemma MulSucc(a: nat, c: nat)
    ensures (a + 1) * c == a * c + c
  {
  }

  /** All rows lie in memory exactly when the last one, (rows - 1) pitches after src, does. */
  lemma {:induction false} RowsInBoundsLastRow(memLength: nat, src: nat, pitch: nat, rowBytes: nat, rows: nat)
    ensures RowsInBounds(memLength, src, pitch, rowBytes, rows) <==> rows == 0 || src + (rows - 1) * pitch + rowBytes <= memLength
    decreases rows
  {
    if rows > 1 {
      RowsInBoundsLastRow(memLength, src + pitch, pitch, rowBytes, rows - 1);
      MulSucc(rows - 2, pitch);
    }
  }

  /** Row k of rows in bounds starts k pitches after src and fits in memory. */
  lemma {:induction false} RowsInBoundsAt(memLength: nat, src: nat, pitch: nat, rowBytes: nat, rows: nat, k: nat)
    requires RowsInBounds(memLength, src, pitch, rowBytes, rows) && k < rows
    ensures src + k * pitch + rowBytes <= memLength
    decreases k
  {
    if k > 0 {
      RowsInBoundsAt(memLength, src + pitch, pitch, rowBytes, rows - 1, k - 1);
      MulSucc(k - 1, pitch);
    }
  }

  /** The image holds rows * rowBytes bytes. */
  lemma {:induction false} UnpackedImageLength(mem: seq<bv8>, src: nat, pitch: nat, rowBytes: nat, rows: nat)
    requires RowsInBounds(|mem|, src, pitch, rowBytes, rows)
    ensures |UnpackedImage(mem, src, pitch, rowBytes, rows)| == rows * rowBytes
    decreases rows
  {
    if rows > 0 {
      UnpackedImageLength(mem, src + pitch, pitch, rowBytes, rows - 1);
      MulSucc(rows - 1, rowBytes);
    }
  }

  /** k steps of the given size, added up one at a time. */
  function Steps(k: nat, step: nat): nat
    decreases k
  {
    if k == 0 then 0 else Steps(k - 1, step) + step
  }

  lemma {:induction false} StepsIsProduct(k: nat, step: nat)
    ensures Steps(k, step) == k * step
    decreases k
  {
    if k > 0 {
      StepsIsProduct(k - 1, step);
      MulSucc(k - 1, step);
    }
  }

  /** UnpackedImageAt with the row offsets counted in steps. */
  lemma {:induction false} UnpackedImageAtSteps(mem: seq<bv8>, src: nat, pitch: nat, rowBytes: nat, rows: nat, k: nat, j: nat)
    requires RowsInBounds(|mem|, src, pitch, rowBytes, rows)
    requires k < rows && j < rowBytes
    ensures Steps(k, rowBytes) + j < |UnpackedImage(mem, src, pitch, rowBytes, rows)|
    ensures src + Steps(k, pitch) + j < |mem|
    ensures UnpackedImage(mem, src, pitch, rowBytes, rows)[Steps(k, rowBytes) + j] == mem[src + Steps(k, pitch) + j]
    decreases k
  {
    var head := mem[src .. src + rowBytes];
    var tail := UnpackedImage(mem, src + pitch, pitch, rowBytes, rows - 1);
    assert UnpackedImage(mem, src, pitch, rowBytes, rows) == head + tail;
    if k == 0 {
      assert (head + tail)[j] == head[j];
    } else {
      var i := Steps(k - 1, rowBytes) + j;
      UnpackedImageAtSteps(mem, src + pitch, pitch, rowBytes, rows - 1, k - 1, j);
      assert (head + tail)[|head| + i] == tail[i];
    }
  }

  /** Byte j of row k of the image is the byte j bytes after the start of source row k, k pitches after src. */
  lemma UnpackedImageAt(mem: seq<bv8>, src: nat, pitch: nat, rowBytes: nat, rows: nat, k: nat, j: nat)
    requires RowsInBounds(|mem|, src, pitch, rowBytes, rows)
    requires k < rows && j < rowBytes
    ensures k * rowBytes + j < |UnpackedImage(mem, src, pitch, rowBytes, rows)|
    ensures src + k * pitch + j < |mem|
    ensures UnpackedImage(mem, src, pitch, rowBytes, rows)[k * rowBytes + j] == mem[src + k * pitch + j]
  {
    UnpackedImageAtSteps(mem, src, pitch, rowBytes, rows, k, j);
    StepsIsProduct(k, rowBytes);
    StepsIsProduct(k, pitch);
  }

  /** Row k + 1 from src is row k from the next row's start. */
  lemma RowShift(mem: seq<bv8>, src: nat, pitch: nat, rowBytes: nat, k: nat)
    ensures Row(mem, src + pitch, pitch, rowBytes, k) == Row(mem, src, pitch, rowBytes, k + 1)
  {
    MulSucc(k, pitch);
  }

  /** The image depends only on the bytes of its rows, never on the padding between them. */
  lemma {:induction false} UnpackedImageReadsOnlyRows(mem1: seq<bv8>, mem2: seq<bv8>, src: nat, pitch: nat, rowBytes: nat, rows: nat)
    requires RowsInBounds(|mem1|, src, pitch, rowBytes, rows)
    requires RowsInBounds(|mem2|, src, pitch, rowBytes, rows)
    requires forall k :: 0 <= k < rows ==> Row(mem1, src, pitch, rowBytes, k) == Row(mem2, src, pitch, rowBytes, k)
    ensures UnpackedImage(mem1, src, pitch, rowBytes, rows) == UnpackedImage(mem2, src, pitch, rowBytes, rows)
    decreases rows
  {
    if rows > 0 {
      assert Row(mem1, src, pitch, rowBytes, 0) == Row(mem2, src, pitch, rowBytes, 0);
      assert mem1[src .. src + rowBytes] == Row(mem1, src, pitch, rowBytes, 0);
      assert mem2[src .. src + rowBytes] == Row(mem2, src, pitch, rowBytes, 0);
      var next := src + pitch;
      var more := rows - 1;
      forall k | 0 <= k < more
        ensures Row(mem1, next, pitch, rowBytes, k) == Row(mem2, next, pitch, rowBytes, k)
      {
        RowShift(mem1, src, pitch, rowBytes, k);
        RowShift(mem2, src, pitch, rowBytes, k);
      }
      UnpackedImageReadsOnlyRows(mem1, mem2, next, pitch, rowBytes, more);
    }
  }

  /**
   * The row loop behind glTexSubImage2D: copies the rows one after another
   * into the front of dst, and writes nothing past them.
   */
  method CopyRows(mem: seq<bv8>, src: nat, pitch: nat, rowBytes: nat, rows: nat, dst: array<bv8>)
    requires RowsInBounds(|mem|, src, pitch, rowBytes, rows)
    requires |UnpackedImage(mem, src, pitch, rowBytes, rows)| <= dst.Length
    modifies dst
    ensures dst[..|UnpackedImage(mem, src, pitch, rowBytes, rows)|] == UnpackedImage(mem, src, pitch, rowBytes, rows)
    ensures dst[|UnpackedImage(mem, src, pitch, rowBytes, rows)|..] == old(dst[|UnpackedImage(mem, src, pitch, rowBytes, rows)|..])
  {
    ghost var image := UnpackedImage(mem, src, pitch, rowBytes, rows);
    ghost var original := dst[..];
    var start: nat := src;
    var off: nat := 0;
    var n: nat := rows;
    while n > 0
      invariant RowsInBounds(|mem|, start, pitch, rowBytes, n)
      invariant off + |UnpackedImage(mem, start, pitch, rowBytes, n)| == |image| <= dst.Length
      invariant dst[..][..off] + UnpackedImage(mem, start, pitch, rowBytes, n) == image
      invariant dst[..][|image|..] == original[|image|..]
    {
      NextRowFits(mem, start, pitch, rowBytes, n, off, |image|);
      ghost var before := dst[..];
      CopyRow(mem, start, rowBytes, dst, off);
      CopyRowsStep(mem, start, start + pitch, pitch, rowBytes, n, n - 1, off, off + rowBytes, image, before, dst[..]);
      off := off + rowBytes;
      start := start + pitch;
      n := n - 1;
    }
  }

  /** Copies the row of rowBytes bytes at mem[from..] to dst[at..]; the rest of dst is kept. */
  method CopyRow(mem: seq<bv8>, from: nat, rowBytes: nat, dst: array<bv8>, at: nat)
    requires from + rowBytes <= |mem| && at + rowBytes <= dst.Length
    modifies dst
    ensures dst[..] == old(dst[..])[..at] + mem[from .. from + rowBytes] + old(dst[..])[at + rowBytes..]
  {
    forall j | at <= j < at + rowBytes {
      dst[j] := mem[from + (j - at)];
    }
  }

  /** The next row CopyRows copies lies in memory and, at offset off, in the destination. */
  lemma NextRowFits(mem: seq<bv8>, start: nat, pitch: nat, rowBytes: nat, n: nat, off: nat, total: nat)
    requires n > 0 && RowsInBounds(|mem|, start, pitch, rowBytes, n)
    requires off + |UnpackedImage(mem, start, pitch, rowBytes, n)| == total
    ensures start + rowBytes <= |mem| && off + rowBytes <= total
  {
    assert |UnpackedImage(mem, start, pitch, rowBytes, n)|
        == rowBytes + |UnpackedImage(mem, start + pitch, pitch, rowBytes, n - 1)|;
  }

  /** One iteration of CopyRows, on the buffer's contents before and after the next row is copied. */
  lemma CopyRowsStep(mem: seq<bv8>, start: nat, nextStart: nat, pitch: nat, rowBytes: nat, n: nat, nextN: nat,
                     off: nat, nextOff: nat, image: seq<bv8>, before: seq<bv8>, after: seq<bv8>)
    requires n > 0 && nextN == n - 1 && nextStart == start + pitch && nextOff == off + rowBytes
    requires RowsInBounds(|mem|, start, pitch, rowBytes, n)
    requires off + |UnpackedImage(mem, start, pitch, rowBytes, n)| == |image| <= |before| == |after|
    requires before[..off] + UnpackedImage(mem, start, pitch, rowBytes, n) == image
    requires after == before[..off] + mem[start .. start + rowBytes] + before[off + rowBytes..]
    ensures RowsInBounds(|mem|, nextStart, pitch, rowBytes, nextN)
    ensures nextOff + |UnpackedImage(mem, nextStart, pitch, rowBytes, nextN)| == |image|
    ensures after[..nextOff] + UnpackedImage(mem, nextStart, pitch, rowBytes, nextN) == image
    ensures after[|image|..] == before[|image|..]
  {
    var head := mem[start .. start + rowBytes];
    var rest := UnpackedImage(mem, start + pitch, pitch, rowBytes, n - 1);
    assert UnpackedImage(mem, start, pitch, rowBytes, n) == head + rest;
    assert after[..off] == before[..off];
    assert after[off .. off + rowBytes] == head;
    assert after[..off + rowBytes] == after[..off] + head;
    assert after[|image|..] == before[|image|..];
  }

  /** The source rows of a raster framebuffer lie inside emulated memory (the source leaves this unchecked). */
  predicate SourceInBounds(fb: FramebufferConfig, memLength: nat, toVirtual: nat -> nat) {
    RasterFault(fb).None? ==>
      RowsInBounds(memLength, toVirtual(SourceAddress(fb)), SourcePitch(fb), fb.width * Bpp(fb), fb.height)
  }

  /**
   * The GL calls of a raster upload that passed its checks: bind the texture,
   * set the row length to the pixel stride, upload width x height pixels in the
   * record's transfer format and type, then restore the row length and binding.
   */
  function RasterUploadCalls(fb: FramebufferConfig, texture: TextureInfo, mem: seq<bv8>, toVirtual: nat -> nat): (calls: seq<GL.Call>)
    requires RasterFault(fb).None? && SourceInBounds(fb, |mem|, toVirtual)
  {
    var bpp := Bpp(fb);
    [GL.BindTexture(texture.handle),
     GL.PixelStoreUnpackRowLength(fb.stride / bpp),
     GL.TexSubImage2D(fb.width, fb.height, texture.glFormat, texture.glType,
       UnpackedImage(mem, toVirtual(SourceAddress(fb)), SourcePitch(fb), fb.width * bpp, fb.height)),
     GL.PixelStoreUnpackRowLength(0),
     GL.BindTexture(0)]
  }

  /** The padded row size GL computes from the pixel stride: the stride itself, or the padded width for stride 0. */
  lemma PaddedRowForStride(l: nat, bpp: nat, stride: nat, width: nat)
    requires l * bpp == stride && stride % 4 == 0
    ensures GL.AlignUp4(bpp * GL.RowGroups(l, width)) == if l > 0 then stride else GL.AlignUp4(width * bpp)
  {
    if l > 0 {
      assert bpp * GL.RowGroups(l, width) == stride;
      AlignedIsFixed(stride);
    } else {
      assert bpp * GL.RowGroups(l, width) == width * bpp;
    }
  }

  lemma AlignedIsFixed(x: nat)
    requires x % 4 == 0
    ensures GL.AlignUp4(x) == x
  {
    var r := GL.AlignUp4(x);
    assert r % 4 == 0 && x <= r < x + 4;
  }

  /**
   * For a record configured for the framebuffer's format, GL's own unpacking
   * rule (row length = pixel stride, alignment 4) yields exactly SourcePitch, and
   * a GL pixel is exactly one emulated pixel: so the row loop reads what GL reads.
   * A positive stride is the row pitch itself.
   */
  lemma UploadPitchMatchesGL(t: TextureInfo, fb: FramebufferConfig)
    requires Configured(t) && t.format == fb.colorFormat
    requires RasterFault(fb).None?
    ensures GL.ElementSize(t.glType) > 0
    ensures GL.GroupBytes(t.glFormat, t.glType) == Bpp(fb)
    ensures GL.UnpackRowPitch(t.glFormat, t.glType, fb.stride / Bpp(fb), fb.width, GL.UNPACK_ALIGNMENT) == SourcePitch(fb)
    ensures fb.stride > 0 ==> SourcePitch(fb) == fb.stride
  {
    var bpp := Bpp(fb);
    var l := fb.stride / bpp;
    assert GL.ElementSize(t.glType) > 0 && GL.GroupBytes(t.glFormat, t.glType) == bpp;
    assert l * bpp == fb.stride && fb.stride % 4 == 0 by { StrideChecks(fb.stride, bpp); }
    GL.UnpackRowPitchAligned(t.glFormat, t.glType, l, fb.width);
    PaddedRowForStride(l, bpp, fb.stride, fb.width);
  }
}
