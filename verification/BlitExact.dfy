/** What `copy_to_fb` does to the screen, pixel by pixel, and exactly when. */
module BlitExact {
  import opened Common
  import opened Blit

  // ---------------------------------------------------------------------------------------
  // Arithmetic

  /** Scaling both sides of a remainder. */
  lemma ModScale(a: nat, m: nat, w: nat)
    requires m > 0 && w > 0
    ensures m * w > 0 && a * w % (m * w) == a % m * w
  {
    var q, r := a / m, a % m;
    MulMono(1, m, w);
    MulMono(r + 1, m, w);
    ScaleSum(a, q, m, r, w);
    ModUnique(a * w, q, r * w, m * w);
  }

  lemma ScaleSum(a: nat, q: nat, m: nat, r: nat, w: nat)
    requires a == m * q + r
    ensures a * w == q * (m * w) + r * w
  {
    calc {
      a * w;
    ==
      (m * q + r) * w;
    ==
      m * q * w + r * w;
    ==
      q * (m * w) + r * w;
    }
  }

  lemma ModUnique(n: nat, q: nat, r: nat, d: nat)
    requires d > 0 && n == q * d + r && r < d
    ensures n % d == r && n / d == q
  {
    var q', r' := n / d, n % d;
    assert n == d * q' + r';
    if q' > q {
      MulMono(q + 1, q', d);
    } else if q' < q {
      MulMono(q' + 1, q, d);
    }
  }

  predicate IsAlign(align: nat) {
    align == 16 || align == 32
  }

  /** Grid cells: `x` lies in its cell, and aligned bounds around `x` lie around the cell. */
  lemma CellFacts(align: nat, x: nat, a: nat, b: nat)
    requires IsAlign(align)
    ensures CellStart(align, x) <= x < CellEnd(align, x)
    ensures CellStart(align, x) % align == 0 && CellEnd(align, x) % align == 0
    ensures a % align == 0 && a <= x ==> a <= CellStart(align, x)
    ensures b % align == 0 && x < b ==> CellEnd(align, x) <= b
  {
    if align == 16 {
      CellFacts16(x, a, b);
    } else {
      CellFacts32(x, a, b);
    }
  }

  lemma CellFacts16(x: nat, a: nat, b: nat)
    ensures CellStart(16, x) <= x < CellEnd(16, x)
    ensures CellStart(16, x) % 16 == 0 && CellEnd(16, x) % 16 == 0
    ensures a % 16 == 0 && a <= x ==> a <= CellStart(16, x)
    ensures b % 16 == 0 && x < b ==> CellEnd(16, x) <= b
  {
    assert CellStart(16, x) == 16 * (x / 16) && CellEnd(16, x) == 16 * (x / 16 + 1);
  }

  lemma CellFacts32(x: nat, a: nat, b: nat)
    ensures CellStart(32, x) <= x < CellEnd(32, x)
    ensures CellStart(32, x) % 32 == 0 && CellEnd(32, x) % 32 == 0
    ensures a % 32 == 0 && a <= x ==> a <= CellStart(32, x)
    ensures b % 32 == 0 && x < b ==> CellEnd(32, x) <= b
  {
    assert CellStart(32, x) == 32 * (x / 32) && CellEnd(32, x) == 32 * (x / 32 + 1);
  }

  /** The two-step extent of `copy_to_fb` is the end of the cell, cut at the screen edge. */
  lemma ExtentIsCellEnd(g: Geometry, x: nat)
    requires ValidGeometry(g) && CellEnd(g.align, x) < U16_RANGE
    ensures Extent(g, x) == Min(CellEnd(g.align, x), g.width)
  {
    CellFacts(g.align, x, 0, 0);
    NextInCell(g.align, x);
  }

  lemma NextInCell(align: nat, x: nat)
    requires IsAlign(align)
    ensures (x + 1) % align == 0 <==> x % align == align - 1
  {
    var q, r := x / align, x % align;
    if align == 16 {
      assert x == 16 * q + r;
      assert r == 15 ==> x + 1 == 16 * (q + 1);
    } else {
      assert x == 32 * q + r;
      assert r == 31 ==> x + 1 == 32 * (q + 1);
    }
  }

  /** The copied columns are whole cells unless the last one is cut. */
  lemma CellsRemainder(align: nat, first: nat, x: nat, width: nat)
    requires IsAlign(align) && first % align == 0 && first <= x < width
    ensures (Min(CellEnd(align, x), width) - first) % align != 0 <==> x >= CellStart(align, width)
  {
    if x >= CellStart(align, width) {
      LastCellIsCut(align, x, width);
      MinusAligned(align, width, first);
    } else {
      CellFacts(align, width, 0, 0);
      CellFacts(align, x, 0, CellStart(align, width));
      MinusAligned(align, CellEnd(align, x), first);
    }
  }

  lemma LastCellIsCut(align: nat, x: nat, width: nat)
    requires IsAlign(align) && CellStart(align, width) <= x < width
    ensures width % align != 0 && CellEnd(align, x) > width
  {
    CellFacts(align, width, 0, 0);
    CellFacts(align, x, CellStart(align, width), 0);
  }

  lemma MinusAligned(align: nat, n: nat, first: nat)
    requires IsAlign(align) && first % align == 0 && first <= n
    ensures (n - first) % align == n % align
  {
    var q, k, r := first / align, (n - first) / align, (n - first) % align;
    if align == 16 {
      assert first == 16 * q && n - first == 16 * k + r;
    } else {
      assert first == 32 * q && n - first == 32 * k + r;
    }
    assert n == (q + k) * align + r;
    ModUnique(n, q + k, r, align);
  }

  // ---------------------------------------------------------------------------------------
  // The columns

  /** The copied columns are the smallest grid-aligned range around the damaged ones. */
  lemma SmallestCover(g: Geometry, d: Region, a: nat, b: nat)
    requires ValidGeometry(g) && d.xmin <= d.xmax < g.width && g.width % g.align == 0
    ensures var first, end := FirstColumn(g, d), EndColumn(g, d);
            && first <= d.xmin && d.xmax < end <= g.width
            && first % g.align == 0 && end % g.align == 0
            && (a % g.align == 0 && b % g.align == 0 && a <= d.xmin && d.xmax < b ==> a <= first && end <= b)
  {
    CellFacts(g.align, d.xmin, a, b);
    CellFacts(g.align, d.xmax, a, b);
    CellFacts(g.align, d.xmax, a, g.width);
  }

  /** The span as computed, when the end of the last cell is a 16-bit value. */
  lemma SpanUpToWidth(g: Geometry, d: Region)
    requires ValidGeometry(g) && d.xmin <= d.xmax < g.width && CellEnd(g.align, d.xmax) < U16_RANGE
    ensures var s, first, end := SpanOf(g, d), FirstColumn(g, d), EndColumn(g, d);
            && first <= d.xmin && d.xmax < end <= g.width
            && s.x == ToU16(first * g.weight) && s.width == ToU16((end - first) * g.weight)
  {
    CellFacts(g.align, d.xmin, 0, 0);
    CellFacts(g.align, d.xmax, 0, 0);
    ExtentIsCellEnd(g, d.xmax);
    var first, end := FirstColumn(g, d), EndColumn(g, d);
    assert ToU16(d.xmin - d.xmin % g.align) == first && ToU16(end - first) == end - first;
  }

  lemma TruncatedIff(n: nat)
    ensures ToU16(n) == n <==> n < U16_RANGE
  {
  }

  /** The 16-bit arithmetic of `copy_to_fb` yields the intended span if and only if the span's
      byte offset and byte length are representable. */
  lemma SpanIsExactIff(g: Geometry, d: Region)
    requires ValidGeometry(g) && d.xmin <= d.xmax < g.width && g.width % g.align == 0
    ensures var s, first, end := SpanOf(g, d), FirstColumn(g, d), EndColumn(g, d);
            (s.x == first * g.weight && s.width == (end - first) * g.weight)
            <==> first * g.weight < U16_RANGE && (end - first) * g.weight < U16_RANGE
  {
    SmallestCover(g, d, 0, 0);
    CellFacts(g.align, d.xmax, 0, g.width);
    SpanUpToWidth(g, d);
    var first, end := FirstColumn(g, d), EndColumn(g, d);
    NonNegative(first, g.weight);
    NonNegative(end - first, g.weight);
    TruncatedIff(first * g.weight);
    TruncatedIff((end - first) * g.weight);
  }

  /** At 32 bits per pixel the span is measured as empty if and only if it is a multiple of 16384 columns,
      that is of 65536 bytes. */
  lemma SpanIsEmptyIff(g: Geometry, d: Region)
    requires ValidGeometry(g) && g.weight == 4 && d.xmin <= d.xmax < g.width && g.width % g.align == 0
    ensures SpanOf(g, d).width == 0 <==> (EndColumn(g, d) - FirstColumn(g, d)) % 16384 == 0
  {
    SmallestCover(g, d, 0, 0);
    CellFacts(g.align, d.xmax, 0, g.width);
    SpanUpToWidth(g, d);
    QuarterRange(EndColumn(g, d) - FirstColumn(g, d));
  }

  lemma QuarterRange(n: nat)
    ensures ToU16(n * 4) == 0 <==> n % 16384 == 0
  {
  }

  /** A 16384-pixel row at 32 bits per pixel is 65536 bytes, measured as none.  With 16-pixel blocks the
      copy reports success and moves nothing. */
  lemma WideRowCopiesNothing(g: Geometry, d: Region)
    requires g.align == 16 && g.weight == 4 && g.width == 16384
    requires d.xmin == 0 && d.xmax == 16383
    ensures ValidGeometry(g) && !Misaligned(g, d)
    ensures SpanOf(g, d) == Span(0, 0)
  {
    SmallestCover(g, d, 0, 16384);
    CellFacts(g.align, d.xmax, 0, 16384);
    SpanUpToWidth(g, d);
  }

  /** With 32-pixel blocks the same row is not refused either, and the assembly routine is called with a
      zero count: it runs through 2^32 blocks of 128 bytes, 512 gigabytes, from the start of the
      row, which no buffers of a 32-bit machine hold. */
  lemma WideRowRunsAway(g: Geometry, d: Region, fbLen: nat, spLen: nat)
    requires g.align == 32 && g.weight == 4 && g.width == 16384
    requires d.xmin == 0 && d.xmax == 16383 && d.ymin <= d.ymax < U16_RANGE - 1
    ensures ValidGeometry(g) && !Misaligned(g, d)
    ensures SpanOf(g, d) == Span(0, 0) && Moved(g, d).width == XMM_LINE * U32_RANGE
    ensures CopyIsSafe(fbLen, spLen, g, d) ==> fbLen >= XMM_LINE * U32_RANGE && spLen >= XMM_LINE * U32_RANGE
  {
    EmptyWideRow(g, d);
    EmptySpan(g, d);
    hide Moved, SpanOf, Misaligned, Blocks;
    HoldsRow(g, d, fbLen, spLen);
  }

  lemma EmptyWideRow(g: Geometry, d: Region)
    requires g.align == 32 && g.weight == 4 && g.width == 16384 && d.xmin == 0 && d.xmax == 16383
    ensures ValidGeometry(g) && SpanOf(g, d) == Span(0, 0)
  {
    SmallestCover(g, d, 0, 16384);
    CellFacts(g.align, d.xmax, 0, 16384);
    SpanUpToWidth(g, d);
  }

  lemma EmptySpan(g: Geometry, d: Region)
    requires ValidGeometry(g) && g.align == 32 && SpanOf(g, d) == Span(0, 0)
    ensures !Misaligned(g, d) && Moved(g, d).width == XMM_LINE * U32_RANGE
  {
    hide SpanOf;
    ModUnique(0, 0, 0, Grid(g));
  }

  lemma HoldsRow(g: Geometry, d: Region, fbLen: nat, spLen: nat)
    requires ValidGeometry(g) && !Misaligned(g, d) && d.ymin <= d.ymax < U16_RANGE - 1
    ensures CopyIsSafe(fbLen, spLen, g, d) ==> fbLen >= Moved(g, d).width && spLen >= Moved(g, d).width
  {
    hide Moved, SpanOf, Misaligned;
    assert RowCount(d) > 0;
  }

  /** The assembly routine moves exactly the span if and only if the depth is 32 bits and the span is not
      measured as empty. */
  lemma MovedIff(g: Geometry, d: Region)
    requires ValidGeometry(g) && g.align == 32 && !Misaligned(g, d)
    ensures Moved(g, d) == SpanOf(g, d) <==> g.weight == 4 && SpanOf(g, d).width > 0
  {
    var w, count := SpanOf(g, d).width, SpanOf(g, d).width / Grid(g);
    WholeBlocks(w, Grid(g));
    hide SpanOf;
    assert w == count * (32 * g.weight);
    if g.weight != 4 && w > 0 {
      Depths(count, g.weight);
    }
  }

  lemma Depths(count: nat, weight: nat)
    requires count > 0 && weight != 4
    ensures count * (32 * weight) != 128 * count
  {
    if weight < 4 {
      MulMono(32 * weight, 96, count);
    } else {
      MulMono(160, 32 * weight, count);
    }
  }

  lemma NonNegative(a: nat, b: nat)
    ensures a * b >= 0
  {
  }

  /** Framebuffers whose rows are measured without overflow: the precondition of the exactness
      results.  At 32 bits per pixel it admits every width below 16384. */
  predicate NarrowRows(g: Geometry) {
    g.width * g.weight < U16_RANGE && g.width + g.align < U16_RANGE
  }

  lemma Distribute(a: nat, b: nat, w: nat)
    requires a <= b
    ensures 0 <= a * w && 0 <= (b - a) * w && a * w + (b - a) * w == b * w
  {
  }

  lemma SpanOfNarrow(g: Geometry, d: Region)
    requires ValidGeometry(g) && NarrowRows(g) && d.xmin <= d.xmax < g.width
    ensures var s, first, end := SpanOf(g, d), FirstColumn(g, d), EndColumn(g, d);
            && first <= d.xmin && d.xmax < end <= g.width
            && s.x == first * g.weight && s.width == (end - first) * g.weight
            && s.x + s.width == end * g.weight <= g.width * g.weight
  {
    CellFacts(g.align, d.xmax, 0, 0);
    SpanUpToWidth(g, d);
    var first, end := FirstColumn(g, d), EndColumn(g, d);
    Distribute(first, end, g.weight);
    MulMono(end, g.width, g.weight);
    TruncatedIff(first * g.weight);
    TruncatedIff((end - first) * g.weight);
  }

  /** Depths the build copies exactly: the assembly routine is for 32 bits per pixel. */
  predicate Depth(g: Geometry) {
    g.align == 32 ==> g.weight == 4
  }

  lemma NarrowMoved(g: Geometry, d: Region)
    requires ValidGeometry(g) && NarrowRows(g) && Depth(g) && d.xmin <= d.xmax < g.width && !Misaligned(g, d)
    ensures Moved(g, d) == SpanOf(g, d)
  {
    SpanOfNarrow(g, d);
    if g.align == 32 {
      MovedIff(g, d);
      MulMono(1, EndColumn(g, d) - FirstColumn(g, d), g.weight);
    }
  }

  /** `copy_to_fb` refuses a rectangle if and only if the screen width is not a whole number of
      grid cells and the rectangle reaches into the last, incomplete cell. */
  lemma RefusedIff(g: Geometry, d: Region)
    requires ValidGeometry(g) && NarrowRows(g) && d.xmin <= d.xmax < g.width
    ensures Misaligned(g, d) <==> d.xmax >= CellStart(g.align, g.width)
  {
    SpanOfNarrow(g, d);
    CellFacts(g.align, d.xmin, 0, 0);
    var first, end := FirstColumn(g, d), EndColumn(g, d);
    ModScale(end - first, g.align, g.weight);
    var r := (end - first) % g.align;
    assert Misaligned(g, d) <==> r * g.weight != 0;
    if r != 0 {
      MulMono(1, r, g.weight);
    }
    CellsRemainder(g.align, first, d.xmax, g.width);
  }

  /** Consequence for the display modes `get_mode_idx` accepts (width a multiple of 16) in a build
      with 32-pixel blocks: when the width is not a multiple of 32, full-width damage is refused. */
  lemma HalfCellModesRefuseFullWidth(g: Geometry, d: Region)
    requires ValidGeometry(g) && NarrowRows(g) && g.align == 32
    requires g.width % 16 == 0 && g.width % 32 != 0
    requires d.xmin <= d.xmax && d.xmax == g.width - 1
    ensures Misaligned(g, d)
  {
    RefusedIff(g, d);
  }

  // ---------------------------------------------------------------------------------------
  // The bytes

  /** Byte `k` lies in the copied part of row `row`. */
  predicate InRow(g: Geometry, s: Span, row: nat, k: nat) {
    RowOffset(row, g.pitch, s.x) <= k < RowOffset(row, g.pitch, s.x) + s.width
  }

  /** A byte in two row parts belongs to one row, at one position. */
  lemma SameRow(pitch: nat, r0: nat, x0: nat, w0: nat, r1: nat, x1: nat, w1: nat, k: nat)
    requires x0 + w0 <= pitch && x1 + w1 <= pitch
    requires RowOffset(r0, pitch, x0) <= k < RowOffset(r0, pitch, x0) + w0
    requires RowOffset(r1, pitch, x1) <= k < RowOffset(r1, pitch, x1) + w1
    ensures r0 == r1 && x0 < x1 + w1 && x1 < x0 + w0
  {
    if r0 < r1 {
      MulMono(r0 + 1, r1, pitch);
    } else if r1 < r0 {
      MulMono(r1 + 1, r0, pitch);
    }
  }

  /** Each copied byte has the value of the sprite byte at the same row and row position. */
  lemma {:induction false} CopiedByte(fb: seq<Byte>, sp: seq<Byte>, g: Geometry, s: Span, y: nat, n: nat, row: nat, j: nat)
    requires RowsInside(|fb|, |sp|, g, s, y, n) && s.x + s.width <= g.pitch
    requires y <= row < y + n && j < s.width
    ensures RowOffset(row, g.pitch, s.x) + s.width <= |fb| && RowOffset(row, g.stride, s.x) + s.width <= |sp|
    ensures CopyRows(fb, sp, g, s, y, n)[RowOffset(row, g.pitch, s.x) + j] == sp[RowOffset(row, g.stride, s.x) + j]
    decreases n
  {
    hide RowOffset, RowsInside;
    InsideLastRow(|fb|, |sp|, g, s, y, n);
    if row < y + n - 1 {
      CopiedByte(fb, sp, g, s, y, n - 1, row, j);
      ByteOfOtherRow(g, s, row, y + n - 1, RowOffset(row, g.pitch, s.x) + j);
    }
  }

  lemma InsideLastRow(fbLen: nat, spLen: nat, g: Geometry, s: Span, y: nat, n: nat)
    requires n > 0 && RowsInside(fbLen, spLen, g, s, y, n)
    ensures RowOffset(y + n - 1, g.pitch, s.x) + s.width <= fbLen
    ensures RowOffset(y + n - 1, g.stride, s.x) + s.width <= spLen
    ensures RowsInside(fbLen, spLen, g, s, y, n - 1)
  {
  }

  lemma ByteOfOtherRow(g: Geometry, s: Span, row: nat, other: nat, k: nat)
    requires s.x + s.width <= g.pitch && row != other && InRow(g, s, row, k)
    ensures !InRow(g, s, other, k)
  {
    if InRow(g, s, other, k) {
      SameRow(g.pitch, row, s.x, s.width, other, s.x, s.width, k);
    }
  }

  /** Every byte outside the copied parts of the copied rows, padding included, is unchanged. */
  lemma {:induction false} UntouchedByte(fb: seq<Byte>, sp: seq<Byte>, g: Geometry, s: Span, y: nat, n: nat, k: nat)
    requires RowsInside(|fb|, |sp|, g, s, y, n) && k < |fb|
    requires forall row: nat :: y <= row < y + n ==> !InRow(g, s, row, k)
    ensures CopyRows(fb, sp, g, s, y, n)[k] == fb[k]
    decreases n
  {
    if n > 0 {
      assert !InRow(g, s, y + n - 1, k);
      UntouchedByte(fb, sp, g, s, y, n - 1, k);
    }
  }

  // ---------------------------------------------------------------------------------------
  // The pixels

  /** The bytes of the pixel in column `col` of row `row`. */
  function Pixel(buf: seq<Byte>, pitch: nat, weight: nat, row: nat, col: nat): (p: seq<Byte>)
    requires RowOffset(row, pitch, col * weight) + weight <= |buf|
    ensures |p| == weight
  {
    buf[RowOffset(row, pitch, col * weight)..RowOffset(row, pitch, col * weight) + weight]
  }

  /** A screen of `height` rows backed by `len` bytes. */
  predicate Backed(len: nat, pitch: nat, weight: nat, width: nat, height: nat) {
    width * weight <= pitch && height * pitch <= len
  }

  lemma PixelInside(len: nat, pitch: nat, weight: nat, width: nat, height: nat, row: nat, col: nat)
    requires Backed(len, pitch, weight, width, height) && row < height && col < width
    ensures col * weight + weight <= pitch
    ensures RowOffset(row, pitch, col * weight) + weight <= RowOffset(row, pitch, pitch) <= len
  {
    MulMono(col + 1, width, weight);
    MulMono(row + 1, height, pitch);
  }

  /** A rectangle inside a sprite made of whole grid cells is copied without leaving either buffer. */
  lemma InsideSpriteIsSafe(fbLen: nat, spLen: nat, g: Geometry, d: Region, height: nat, spWidth: nat, spHeight: nat)
    requires ValidGeometry(g) && NarrowRows(g) && g.width % g.align == 0
    requires g.align == 32 ==> g.weight == 4
    requires Backed(fbLen, g.pitch, g.weight, g.width, height)
    requires g.stride == spWidth * g.weight && spHeight * g.stride <= spLen
    requires spWidth % g.align == 0 && spWidth <= g.width && spHeight <= height < U16_RANGE
    requires d.xmin <= d.xmax < spWidth && d.ymin <= d.ymax < spHeight
    ensures !Misaligned(g, d) && CopyIsSafe(fbLen, spLen, g, d)
    ensures EndColumn(g, d) <= spWidth
  {
    SpanOfNarrow(g, d);
    RefusedIff(g, d);
    SmallestCover(g, d, 0, spWidth);
    CellFacts(g.align, g.width, 0, g.width);
    var first, end := FirstColumn(g, d), EndColumn(g, d);
    MulMono(end, spWidth, g.weight);
    MulMono(end, g.width, g.weight);
    NarrowMoved(g, d);
    hide SpanOf, FirstColumn, EndColumn, RowsInside, Misaligned;
    RowsFit(fbLen, spLen, g, Moved(g, d), d.ymin, RowCount(d), height, spHeight);
  }

  lemma {:induction false} RowsFit(fbLen: nat, spLen: nat, g: Geometry, s: Span, y: nat, n: nat, height: nat, spHeight: nat)
    requires s.x + s.width <= g.pitch && s.x + s.width <= g.stride
    requires y + n <= height && y + n <= spHeight
    requires height * g.pitch <= fbLen && spHeight * g.stride <= spLen
    ensures RowsInside(fbLen, spLen, g, s, y, n)
    decreases n
  {
    if n > 0 {
      MulMono(y + n, height, g.pitch);
      MulMono(y + n, spHeight, g.stride);
      assert (y + n) * g.pitch == (y + n - 1) * g.pitch + g.pitch;
      assert (y + n) * g.stride == (y + n - 1) * g.stride + g.stride;
      RowsFit(fbLen, spLen, g, s, y, n - 1, height, spHeight);
    }
  }

  /** Where the last byte that a copy reads ends, counted from the start of the sprite's memory. */
  function ReadEnd(g: Geometry, d: Region): nat
    requires ValidGeometry(g)
  {
    if RowCount(d) == 0 then 0
    else RowOffset(d.ymin + RowCount(d) - 1, g.stride, Moved(g, d).x + Moved(g, d).width)
  }

  /** Where the last byte it writes ends, counted from the start of the framebuffer. */
  function WriteEnd(g: Geometry, d: Region): nat
    requires ValidGeometry(g)
  {
    ReadEnd(g.(stride := g.pitch), d)
  }

  /** The exact condition for any rectangle, depth and buffers: the last row ends inside both. */
  lemma CopyIsSafeIff(g: Geometry, d: Region, fbLen: nat, spLen: nat)
    requires ValidGeometry(g)
    ensures CopyIsSafe(fbLen, spLen, g, d) <==> Misaligned(g, d) || (WriteEnd(g, d) <= fbLen && ReadEnd(g, d) <= spLen)
  {
    if RowCount(d) > 0 {
      RowsInsideByLast(fbLen, spLen, g, Moved(g, d), d.ymin, RowCount(d));
    }
  }

  /** The end of the copied columns in the rectangle's last row, in the sprite's memory. */
  function LastRowEnd(g: Geometry, d: Region): nat
    requires ValidGeometry(g)
  {
    RowOffset(d.ymax, g.stride, EndColumn(g, d) * g.weight)
  }

  lemma ReadEndOnScreen(g: Geometry, d: Region, height: nat)
    requires ValidGeometry(g) && NarrowRows(g) && Depth(g) && !Misaligned(g, d)
    requires d.xmin <= d.xmax < g.width && d.ymin <= d.ymax < height < U16_RANGE
    ensures ReadEnd(g, d) == LastRowEnd(g, d)
  {
    NarrowMoved(g, d);
    SpanOfNarrow(g, d);
  }

  lemma WriteEndOnScreen(g: Geometry, d: Region, fbLen: nat, height: nat)
    requires ValidGeometry(g) && NarrowRows(g) && Depth(g) && !Misaligned(g, d)
    requires Backed(fbLen, g.pitch, g.weight, g.width, height) && height < U16_RANGE
    requires d.xmin <= d.xmax < g.width && d.ymin <= d.ymax < height
    ensures WriteEnd(g, d) <= fbLen
  {
    var h := g.(stride := g.pitch);
    assert SpanOf(h, d) == SpanOf(g, d);
    ReadEndOnScreen(h, d, height);
    hide ReadEnd, Misaligned, SpanOf;
    SpanOfNarrow(g, d);
    RowEnds(fbLen, g.pitch, g.weight, g.width, height, d.ymax, EndColumn(g, d) * g.weight);
  }

  /** The server checks a damage rectangle against the screen only.  For a rectangle on a narrow screen
      and a sprite of any depth, with `spLen` bytes of memory, the copy stays inside both buffers if
      and only if the end of its last row lies inside the sprite's memory. */
  lemma StaysInsideSpriteIff(g: Geometry, d: Region, fbLen: nat, spLen: nat, height: nat)
    requires ValidGeometry(g) && NarrowRows(g) && Depth(g) && !Misaligned(g, d)
    requires Backed(fbLen, g.pitch, g.weight, g.width, height) && height < U16_RANGE
    requires d.xmin <= d.xmax < g.width && d.ymin <= d.ymax < height
    ensures ReadEnd(g, d) == LastRowEnd(g, d)
    ensures CopyIsSafe(fbLen, spLen, g, d) <==> ReadEnd(g, d) <= spLen
  {
    ReadEndOnScreen(g, d, height);
    WriteEndOnScreen(g, d, fbLen, height);
    hide CopyIsSafe, ReadEnd, WriteEnd, Misaligned, LastRowEnd;
    CopyIsSafeIff(g, d, fbLen, spLen);
  }

  /** In pixels, for a sprite of `spWidth * spHeight` pixels of the screen's depth. */
  lemma ReadEndInPixels(g: Geometry, d: Region, spWidth: nat, spHeight: nat)
    requires ValidGeometry(g) && g.stride == spWidth * g.weight
    ensures LastRowEnd(g, d) <= spHeight * g.stride <==> d.ymax * spWidth + EndColumn(g, d) <= spHeight * spWidth
  {
    CompareScaled(d.ymax, spWidth, EndColumn(g, d), spHeight, g.weight);
  }

  lemma RowEnds(len: nat, pitch: nat, weight: nat, width: nat, height: nat, row: nat, end: nat)
    requires Backed(len, pitch, weight, width, height) && row < height && end <= width * weight
    ensures RowOffset(row, pitch, end) <= len
  {
    MulMono(row + 1, height, pitch);
  }

  lemma CompareScaled(row: nat, width: nat, end: nat, height: nat, w: nat)
    requires w > 0
    ensures row * (width * w) + end * w <= height * (width * w) <==> row * width + end <= height * width
  {
    var a, b := row * width + end, height * width;
    assert a * w == row * (width * w) + end * w;
    assert b * w == height * (width * w);
    if a <= b {
      MulMono(a, b, w);
    } else {
      MulMono(b + 1, a, w);
    }
  }

  lemma {:induction false} RowsInsideByLast(fbLen: nat, spLen: nat, g: Geometry, s: Span, y: nat, n: nat)
    requires n > 0
    ensures RowsInside(fbLen, spLen, g, s, y, n)
            <==> && RowOffset(y + n - 1, g.pitch, s.x) + s.width <= fbLen
                 && RowOffset(y + n - 1, g.stride, s.x) + s.width <= spLen
    decreases n
  {
    if n > 1 {
      RowsInsideByLast(fbLen, spLen, g, s, y, n - 1);
      MulMono(y + n - 2, y + n - 1, g.pitch);
      MulMono(y + n - 2, y + n - 1, g.stride);
    }
  }

  predicate InGridRect(g: Geometry, d: Region, row: nat, col: nat)
    requires ValidGeometry(g)
  {
    d.ymin <= row <= d.ymax && FirstColumn(g, d) <= col < EndColumn(g, d)
  }

  /** The main result on `copy_to_fb`: after a successful copy, a screen pixel has the sprite's value
      when it lies in the grid-aligned rectangle, and its old value otherwise. */
  lemma CopyIsExact(fb: seq<Byte>, sp: seq<Byte>, g: Geometry, d: Region, height: nat, row: nat, col: nat)
    requires ValidGeometry(g) && NarrowRows(g) && Depth(g) && CopyIsSafe(|fb|, |sp|, g, d) && !Misaligned(g, d)
    requires Backed(|fb|, g.pitch, g.weight, g.width, height) && height < U16_RANGE
    requires d.xmin <= d.xmax < g.width && d.ymin <= d.ymax < height
    requires row < height && col < g.width
    ensures RowOffset(row, g.pitch, col * g.weight) + g.weight <= |fb|
    ensures InGridRect(g, d, row, col) ==> RowOffset(row, g.stride, col * g.weight) + g.weight <= |sp|
    ensures Pixel(CopyToFbSpec(fb, sp, g, d).value, g.pitch, g.weight, row, col)
         == if InGridRect(g, d, row, col) then Pixel(sp, g.stride, g.weight, row, col)
            else Pixel(fb, g.pitch, g.weight, row, col)
  {
    hide CopyIsSafe, CopyToFbSpec, CopyRows, RowsInside, Misaligned, SpanOf, RowOffset, InRow, NarrowRows;
    PixelInside(|fb|, g.pitch, g.weight, g.width, height, row, col);
    NonNegative(col, g.weight);
    CopiesSpan(fb, sp, g, d);
    var s, n, x := SpanOf(g, d), RowCount(d), col * g.weight;
    if InGridRect(g, d, row, col) {
      PixelInSpan(g, d, row, col, x);
      CopiedRun(fb, sp, g, s, d.ymin, n, row, x, g.weight);
    } else {
      PixelApart(g, d, row, col, x);
      KeptRun(fb, sp, g, s, d.ymin, n, RowOffset(row, g.pitch, x), g.weight);
    }
  }

  /** The bytes `at..at + len` are in no copied row part. */
  ghost predicate Apart(g: Geometry, s: Span, y: nat, n: nat, at: nat, len: nat) {
    forall k: nat, r: nat :: y <= r < y + n && InRow(g, s, r, k) ==> k < at || k >= at + len
  }

  lemma PixelApart(g: Geometry, d: Region, row: nat, col: nat, x: nat)
    requires ValidGeometry(g) && NarrowRows(g) && g.width * g.weight <= g.pitch && x == col * g.weight
    requires d.xmin <= d.xmax < g.width && d.ymin <= d.ymax < U16_RANGE && col < g.width && !InGridRect(g, d, row, col)
    ensures Apart(g, SpanOf(g, d), d.ymin, RowCount(d), RowOffset(row, g.pitch, x), g.weight)
  {
    hide SpanOf, RowOffset, InRow;
    var at := RowOffset(row, g.pitch, x);
    forall k: nat, r: nat | d.ymin <= r < d.ymin + RowCount(d) && InRow(g, SpanOf(g, d), r, k)
      ensures k < at || k >= at + g.weight
    {
      if at <= k < at + g.weight {
        PixelOutside(g, d, row, col, x, k);
      }
    }
  }

  /** On narrow rows the copy is the row-by-row copy of the measured span. */
  lemma CopiesSpan(fb: seq<Byte>, sp: seq<Byte>, g: Geometry, d: Region)
    requires ValidGeometry(g) && NarrowRows(g) && Depth(g) && CopyIsSafe(|fb|, |sp|, g, d) && !Misaligned(g, d)
    requires d.xmin <= d.xmax < g.width
    ensures RowsInside(|fb|, |sp|, g, SpanOf(g, d), d.ymin, RowCount(d))
    ensures CopyToFbSpec(fb, sp, g, d).value == CopyRows(fb, sp, g, SpanOf(g, d), d.ymin, RowCount(d))
  {
    hide SpanOf, Moved, RowsInside, CopyRows;
    NarrowMoved(g, d);
  }

  /** A run of bytes that lies in no copied row part. */
  lemma KeptRun(fb: seq<Byte>, sp: seq<Byte>, g: Geometry, s: Span, y: nat, n: nat, at: nat, len: nat)
    requires RowsInside(|fb|, |sp|, g, s, y, n) && at + len <= |fb|
    requires Apart(g, s, y, n, at, len)
    ensures CopyRows(fb, sp, g, s, y, n)[at..at + len] == fb[at..at + len]
  {
    hide RowsInside, CopyRows, InRow;
    var t := CopyRows(fb, sp, g, s, y, n);
    forall k | at <= k < at + len
      ensures t[k] == fb[k]
    {
      UntouchedByte(fb, sp, g, s, y, n, k);
    }
  }

  /** A pixel of the grid rectangle lies in the span. */
  lemma PixelInSpan(g: Geometry, d: Region, row: nat, col: nat, x: nat)
    requires ValidGeometry(g) && NarrowRows(g) && d.xmin <= d.xmax < g.width && g.width * g.weight <= g.pitch
    requires InGridRect(g, d, row, col) && x == col * g.weight
    ensures g.weight > 0 && d.ymin <= row <= d.ymax
    ensures var s := SpanOf(g, d); s.x <= x && x + g.weight <= s.x + s.width <= g.pitch
  {
    hide SpanOf, FirstColumn, EndColumn;
    SpanOfNarrow(g, d);
    MulMono(FirstColumn(g, d), col, g.weight);
    MulMono(col + 1, EndColumn(g, d), g.weight);
  }

  lemma OffsetShift(row: nat, pitch: nat, x: nat, z: nat)
    requires x <= z
    ensures RowOffset(row, pitch, z) == RowOffset(row, pitch, x) + (z - x)
  {
  }

  /** A run of bytes inside the span of a copied row. */
  lemma CopiedRun(fb: seq<Byte>, sp: seq<Byte>, g: Geometry, s: Span, y: nat, n: nat, row: nat, x: nat, len: nat)
    requires RowsInside(|fb|, |sp|, g, s, y, n) && s.x + s.width <= g.pitch
    requires y <= row < y + n && s.x <= x && x + len <= s.x + s.width && len > 0
    ensures RowOffset(row, g.pitch, x) + len <= |fb| && RowOffset(row, g.stride, x) + len <= |sp|
    ensures CopyRows(fb, sp, g, s, y, n)[RowOffset(row, g.pitch, x)..RowOffset(row, g.pitch, x) + len]
         == sp[RowOffset(row, g.stride, x)..RowOffset(row, g.stride, x) + len]
  {
    hide RowOffset, CopyRows, RowsInside;
    var t := CopyRows(fb, sp, g, s, y, n);
    var at, from := RowOffset(row, g.pitch, x), RowOffset(row, g.stride, x);
    OffsetShift(row, g.pitch, s.x, x);
    OffsetShift(row, g.stride, s.x, x);
    CopiedByte(fb, sp, g, s, y, n, row, x - s.x);
    forall k | at <= k < at + len
      ensures t[k] == sp[from + (k - at)]
    {
      CopiedByte(fb, sp, g, s, y, n, row, x - s.x + (k - at));
    }
  }

  /** A byte of a pixel outside the grid rectangle is in no copied row part. */
  lemma PixelOutside(g: Geometry, d: Region, row: nat, col: nat, x: nat, k: nat)
    requires ValidGeometry(g) && NarrowRows(g) && g.width * g.weight <= g.pitch
    requires d.xmin <= d.xmax < g.width && d.ymin <= d.ymax < U16_RANGE
    requires col < g.width && !InGridRect(g, d, row, col) && x == col * g.weight
    requires RowOffset(row, g.pitch, x) <= k < RowOffset(row, g.pitch, x) + g.weight
    ensures forall r: nat :: d.ymin <= r < d.ymin + RowCount(d) ==> !InRow(g, SpanOf(g, d), r, k)
  {
    var s := SpanOf(g, d);
    ColumnOutside(g, d, col, x);
    forall r: nat | d.ymin <= r < d.ymin + RowCount(d) && InRow(g, s, r, k)
      ensures false
    {
      SameRow(g.pitch, row, x, g.weight, r, s.x, s.width, k);
    }
  }

  lemma ColumnOutside(g: Geometry, d: Region, col: nat, x: nat)
    requires ValidGeometry(g) && NarrowRows(g) && g.width * g.weight <= g.pitch
    requires d.xmin <= d.xmax < g.width && col < g.width && x == col * g.weight
    ensures var s := SpanOf(g, d);
            && x + g.weight <= g.pitch && s.x + s.width <= g.pitch
            && (col < FirstColumn(g, d) ==> x + g.weight <= s.x)
            && (EndColumn(g, d) <= col ==> s.x + s.width <= x)
  {
    SpanOfNarrow(g, d);
    ScaledOrder(col, FirstColumn(g, d), EndColumn(g, d), g.width, g.weight);
  }

  lemma ScaledOrder(col: nat, first: nat, end: nat, width: nat, w: nat)
    requires col < width
    ensures col * w + w <= width * w
    ensures col < first ==> col * w + w <= first * w
    ensures end <= col ==> end * w <= col * w
  {
    MulMono(col + 1, width, w);
    if col < first {
      MulMono(col + 1, first, w);
    }
    if end <= col {
      MulMono(end, col, w);
    }
  }

  /** Row padding survives every copy. */
  lemma PaddingUntouched(fb: seq<Byte>, sp: seq<Byte>, g: Geometry, d: Region, row: nat, k: nat)
    requires g.width * g.weight <= g.pitch
    requires RowOffset(row, g.pitch, g.width * g.weight) <= k < RowOffset(row, g.pitch, g.pitch) && k < |fb|
    requires ValidGeometry(g) && NarrowRows(g) && Depth(g) && CopyIsSafe(|fb|, |sp|, g, d) && !Misaligned(g, d)
    requires d.xmin <= d.xmax < g.width
    ensures CopyToFbSpec(fb, sp, g, d).value[k] == fb[k]
  {
    hide Moved, CopyIsSafe, CopyToFbSpec, CopyRows;
    CopiesSpan(fb, sp, g, d);
    SpanOfNarrow(g, d);
    var s, x := SpanOf(g, d), g.width * g.weight;
    forall r: nat | d.ymin <= r < d.ymin + RowCount(d) && InRow(g, s, r, k)
      ensures false
    {
      SameRow(g.pitch, row, x, g.pitch - x, r, s.x, s.width, k);
    }
    UntouchedByte(fb, sp, g, s, d.ymin, RowCount(d), k);
  }
}
