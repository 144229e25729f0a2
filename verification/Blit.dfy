/** platform/linux/fb.c and platform/x86.s: copying a damaged rectangle of a client's sprite into
    the framebuffer.

    The rectangle is widened to a grid of `align` pixels and copied in blocks between two byte
    buffers with different row pitches.  All offsets the C code keeps in 16-bit variables are
    truncated here as they are there. */
module Blit {
  import opened Common

  /** `struct spr16_msgdata_sync`: inclusive pixel bounds. */
  datatype Region = Region(xmin: nat, ymin: nat, xmax: nat, ymax: nat)

  predicate RegionFitsU16(d: Region) {
    d.xmin < U16_RANGE && d.ymin < U16_RANGE && d.xmax < U16_RANGE && d.ymax < U16_RANGE
  }

  /** A whole sprite, or a whole screen. */
  function WholeOf(width: nat, height: nat): Region
    requires width > 0 && height > 0
  {
    Region(0, 0, width - 1, height - 1)
  }

  /** What one call of `copy_to_fb` depends on besides the pixels: `align` is PIXL_ALIGN,
      `weight` the bytes of a pixel, `width` the framebuffer width in pixels, `pitch` the bytes
      of a framebuffer row and `stride` the bytes of a sprite row. */
  datatype Geometry = Geometry(align: nat, weight: nat, width: nat, pitch: nat, stride: nat)

  predicate ValidGeometry(g: Geometry) {
    && (g.align == 16 || g.align == 32)
    && g.weight > 0
    && g.width < U16_RANGE
  }

  // ---------------------------------------------------------------------------------------
  // The span of bytes copied on every row

  /** First column of the grid cell that holds column `x`. */
  function CellStart(align: nat, x: nat): nat
    requires align > 0
  {
    x - x % align
  }

  /** One past the last column of the grid cell that holds column `x`. */
  function CellEnd(align: nat, x: nat): nat
    requires align > 0
  {
    CellStart(align, x) + align
  }

  /** Columns `from..to` that should be copied: whole grid cells, cut at the screen edge. */
  function FirstColumn(g: Geometry, d: Region): nat
    requires ValidGeometry(g)
  {
    CellStart(g.align, d.xmin)
  }

  function EndColumn(g: Geometry, d: Region): nat
    requires ValidGeometry(g)
  {
    Min(CellEnd(g.align, d.xmax), g.width)
  }

  /** Byte offset in a row, and number of bytes, as `copy_to_fb` computes them. */
  datatype Span = Span(x: nat, width: nat)

  function SpanOf(g: Geometry, d: Region): Span
    requires ValidGeometry(g)
  {
    var x := ToU16(d.xmin - d.xmin % g.align);
    Span(ToU16(x * g.weight), ToU16(ToU16(Extent(g, d.xmax) - x) * g.weight))
  }

  /** `x_extent`: where the copied columns end. */
  function Extent(g: Geometry, xmax: nat): nat
    requires ValidGeometry(g)
  {
    var e0 := ToU16(xmax + 1);
    var e1 := if e0 % g.align != 0 then ToU16(xmax + (g.align - xmax % g.align)) else e0;
    if e1 > g.width then g.width else e1
  }

  /** Bytes of one block. */
  function Grid(g: Geometry): (r: nat)
    requires ValidGeometry(g)
    ensures r > 0
  {
    g.align * g.weight
  }

  function RowCount(d: Region): nat {
    ToU16(d.ymax - d.ymin + 1)
  }

  /** `copy_to_fb` gives up, copying nothing, when the span is not a number of whole blocks. */
  predicate Misaligned(g: Geometry, d: Region)
    requires ValidGeometry(g)
  {
    SpanOf(g, d).width % Grid(g) != 0
  }

  // ---------------------------------------------------------------------------------------
  // Byte buffers

  /** `s` with `data` stored at `at`. */
  function Store(s: seq<Byte>, at: nat, data: seq<Byte>): (r: seq<Byte>)
    requires at + |data| <= |s|
    ensures |r| == |s|
  {
    seq(|s|, k requires 0 <= k < |s| => if at <= k < at + |data| then data[k - at] else s[k])
  }

  lemma StoreTwice(s: seq<Byte>, at: nat, a: seq<Byte>, b: seq<Byte>)
    requires at + |a| + |b| <= |s|
    ensures Store(Store(s, at, a), at + |a|, b) == Store(s, at, a + b)
  {
  }

  /** Byte offset of position `x` of a row in a buffer with rows of `pitch` bytes. */
  function RowOffset(row: nat, pitch: nat, x: nat): nat {
    row * pitch + x
  }

  /** The first `n` rows of the copy. */
  function CopyRows(fb: seq<Byte>, sp: seq<Byte>, g: Geometry, s: Span, y: nat, n: nat): (r: seq<Byte>)
    requires RowsInside(|fb|, |sp|, g, s, y, n)
    ensures |r| == |fb|
  {
    if n == 0 then fb
    else
      var row := y + n - 1;
      var from := RowOffset(row, g.stride, s.x);
      Store(CopyRows(fb, sp, g, s, y, n - 1), RowOffset(row, g.pitch, s.x), sp[from..from + s.width])
  }

  /** Rows `y..y+n` of the span lie inside both buffers. */
  predicate RowsInside(fbLen: nat, spLen: nat, g: Geometry, s: Span, y: nat, n: nat)
    decreases n
  {
    n > 0 ==>
      && RowOffset(y + n - 1, g.pitch, s.x) + s.width <= fbLen
      && RowOffset(y + n - 1, g.stride, s.x) + s.width <= spLen
      && RowsInside(fbLen, spLen, g, s, y, n - 1)
  }

  // ---------------------------------------------------------------------------------------
  // The copy loops

  /** `memcpy`. */
  method CopyBytes(dst: array<Byte>, at: nat, src: array<Byte>, from: nat, len: nat)
    requires dst != src && at + len <= dst.Length && from + len <= src.Length
    modifies dst
    ensures dst[..] == Store(old(dst[..]), at, src[..][from..from + len])
  {
    for k := 0 to len
      invariant dst[..] == Store(old(dst[..]), at, src[..][from..from + k])
    {
      dst[at + k] := src[from + k];
    }
  }

  const XMM_LINE := 128

  /** How many blocks `x86_sse2_xmmcpy_1024` moves: its 32-bit counter is compared after the body, for
      equality, so a zero count stands for 2^32. */
  function Blocks(count: nat): (n: nat)
    ensures n > 0
  {
    if count == 0 then U32_RANGE else count
  }

  /** `x86_sse2_xmmcpy_1024`. */
  method XmmCopy(dst: array<Byte>, at: nat, src: array<Byte>, from: nat, count: nat)
    requires dst != src && count < U32_RANGE
    requires at + XMM_LINE * Blocks(count) <= dst.Length && from + XMM_LINE * Blocks(count) <= src.Length
    modifies dst
    ensures dst[..] == Store(old(dst[..]), at, src[..][from..from + XMM_LINE * Blocks(count)])
  {
    ghost var was := dst[..];
    var eax, ebx, ecx := from, at, 0;
    ghost var done := 0;
    while true
      invariant done < Blocks(count) && ecx == ToU32(done) == done
      invariant eax == from + XMM_LINE * done && ebx == at + XMM_LINE * done
      invariant dst[..] == Store(was, at, src[..][from..eax])
      decreases Blocks(count) - done
    {
      CopyBytes(dst, ebx, src, eax, XMM_LINE);
      StoreNext(was, at, src[..], from, eax - from, XMM_LINE);
      ecx := ToU32(ecx + 1);
      done := done + 1;
      eax := eax + XMM_LINE;
      ebx := ebx + XMM_LINE;
      if ecx == count {
        break;
      }
    }
  }

  /** The portable alternative: one `memcpy` per block; `total` is `count * grid`. */
  method BlockCopy(dst: array<Byte>, at: nat, src: array<Byte>, from: nat, count: nat, grid: nat, ghost total: nat)
    requires dst != src && total == count * grid
    requires at + total <= dst.Length && from + total <= src.Length
    modifies dst
    ensures dst[..] == Store(old(dst[..]), at, src[..][from..from + total])
  {
    ghost var was := dst[..];
    var off := 0;
    for z := 0 to count
      invariant off == z * grid && off <= total
      invariant dst[..] == Store(was, at, src[..][from..from + off])
    {
      BlockStep(z, count, grid);
      CopyBytes(dst, at + off, src, from + off, grid);
      StoreNext(was, at, src[..], from, off, grid);
      off := off + grid;
    }
  }

  lemma BlockStep(z: nat, count: nat, grid: nat)
    requires z < count
    ensures (z + 1) * grid == z * grid + grid <= count * grid
  {
    MulMono(z + 1, count, grid);
  }

  lemma MulMono(a: nat, b: nat, m: nat)
    requires a <= b
    ensures a * m <= b * m
  {
    assert b * m == a * m + (b - a) * m;
  }

  lemma StoreNext(was: seq<Byte>, at: nat, src: seq<Byte>, from: nat, done: nat, more: nat)
    requires at + done + more <= |was| && from + done + more <= |src|
    ensures Store(Store(was, at, src[from..from + done]), at + done, src[from + done..from + done + more])
         == Store(was, at, src[from..from + done + more])
  {
    StoreTwice(was, at, src[from..from + done], src[from + done..from + done + more]);
    assert src[from..from + done] + src[from + done..from + done + more] == src[from..from + done + more];
  }

  /** The bytes moved on every row: the assembly routine moves blocks of 128 bytes whatever the depth, and
      takes a zero count for 2^32 blocks. */
  function Moved(g: Geometry, d: Region): Span
    requires ValidGeometry(g)
  {
    var s := SpanOf(g, d);
    if g.align == 32 then Span(s.x, XMM_LINE * Blocks(Quotient(s.width, Grid(g)))) else s
  }

  function Quotient(a: nat, b: nat): (q: nat)
    requires b > 0
    ensures q == a / b
  {
    a / b
  }

  /** What the callers of `copy_to_fb` must guarantee: the rows moved lie inside both buffers. */
  predicate CopyIsSafe(fbLen: nat, spLen: nat, g: Geometry, d: Region)
    requires ValidGeometry(g)
  {
    !Misaligned(g, d) ==> RowsInside(fbLen, spLen, g, Moved(g, d), d.ymin, RowCount(d))
  }

  function CopyToFbSpec(fb: seq<Byte>, sp: seq<Byte>, g: Geometry, d: Region): (r: Option<seq<Byte>>)
    requires ValidGeometry(g) && CopyIsSafe(|fb|, |sp|, g, d)
    ensures r.Some? ==> |r.value| == |fb|
  {
    if Misaligned(g, d) then None
    else Some(CopyRows(fb, sp, g, Moved(g, d), d.ymin, RowCount(d)))
  }

  /** The columns of `copy_to_fb`, widened to the grid and converted to bytes. */
  method MeasureSpan(g: Geometry, d: Region) returns (x: nat, width: nat)
    requires ValidGeometry(g) && RegionFitsU16(d)
    ensures Span(x, width) == SpanOf(g, d) && width < U16_RANGE
  {
    x := ToU16(d.xmin - d.xmin % g.align);
    var xExtent := ToU16(d.xmax + 1);
    if xExtent % g.align != 0 {
      xExtent := ToU16(d.xmax + (g.align - d.xmax % g.align));
    }
    if xExtent > g.width {
      xExtent := g.width;
    }
    width := ToU16(xExtent - x);
    width := ToU16(width * g.weight);
    x := ToU16(x * g.weight);
  }

  /** `copy_to_fb`. */
  method CopyToFb(fb: array<Byte>, sp: array<Byte>, g: Geometry, d: Region) returns (ok: bool)
    requires fb != sp && ValidGeometry(g) && RegionFitsU16(d)
    requires CopyIsSafe(fb.Length, sp.Length, g, d)
    modifies fb
    ensures ok <==> !Misaligned(g, d)
    ensures fb[..] == (if ok then CopyToFbSpec(old(fb[..]), sp[..], g, d).value else old(fb[..]))
  {
    hide SpanOf, RowsInside, CopyRows;
    var gridSize := g.align * g.weight;
    var height := ToU16(d.ymax - d.ymin + 1);
    var x, width := MeasureSpan(g, d);
    var count := width / gridSize;
    if width % gridSize != 0 {
      return false;
    }
    WholeBlocks(width, gridSize);
    CopyRowLoop(fb, sp, g, Moved(g, d), x, d.ymin, height, count);
    ok := true;
  }

  /** The row loop of `copy_to_fb`. */
  method CopyRowLoop(fb: array<Byte>, sp: array<Byte>, g: Geometry, ghost s: Span,
                     x: nat, y: nat, height: nat, count: nat)
    requires fb != sp && ValidGeometry(g)
    requires RowsInside(fb.Length, sp.Length, g, s, y, height)
    requires x == s.x && count < U32_RANGE
    requires s.width == if g.align == 32 then XMM_LINE * Blocks(count) else count * Grid(g)
    modifies fb
    ensures fb[..] == CopyRows(old(fb[..]), sp[..], g, s, y, height)
  {
    hide Blocks, Store, Grid;
    ghost var was, pixels := fb[..], sp[..];
    for i := 0 to height
      invariant RowsInside(|was|, |pixels|, g, s, y, i)
      invariant sp[..] == pixels && fb[..] == CopyRows(was, pixels, g, s, y, i)
    {
      RowsInsidePrefix(|was|, |pixels|, g, s, y, height, i + 1);
      var svoff := RowOffset(y + i, g.pitch, x);
      var cloff := RowOffset(y + i, g.stride, x);
      CopyOneRow(fb, svoff, sp, cloff, g, count, s.width);
    }
  }

  /** One row, by the routine the build selects. */
  method CopyOneRow(fb: array<Byte>, svoff: nat, sp: array<Byte>, cloff: nat, g: Geometry,
                    count: nat, ghost width: nat)
    requires fb != sp && ValidGeometry(g)
    requires svoff + width <= fb.Length && cloff + width <= sp.Length
    requires count < U32_RANGE && width == if g.align == 32 then XMM_LINE * Blocks(count) else count * Grid(g)
    modifies fb
    ensures fb[..] == Store(old(fb[..]), svoff, sp[..][cloff..cloff + width])
  {
    if g.align == 32 {
      XmmCopy(fb, svoff, sp, cloff, count);
    } else {
      BlockCopy(fb, svoff, sp, cloff, count, g.align * g.weight, width);
    }
  }

  lemma WholeBlocks(width: nat, grid: nat)
    requires grid > 0 && width % grid == 0
    ensures (width / grid) * grid == width
    ensures width > 0 ==> width / grid > 0
    ensures width / grid <= width
  {
    var q := width / grid;
    MulMono(1, grid, q);
  }

  lemma {:induction false} RowsInsidePrefix(fbLen: nat, spLen: nat, g: Geometry, s: Span, y: nat, n: nat, m: nat)
    requires m <= n && RowsInside(fbLen, spLen, g, s, y, n)
    ensures RowsInside(fbLen, spLen, g, s, y, m)
    decreases n
  {
    if m < n {
      RowsInsidePrefix(fbLen, spLen, g, s, y, n - 1, m);
    }
  }
}
