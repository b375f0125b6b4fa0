/** Moving NV12 frames between compact buffers and buffers with a row stride and a
    virtual height: the encoder's padding, the camera's repacking and their round trip. */
module Nv12 {
  import opened Bytes
  import opened Grid

  // ----- copying rows between strided planes

  /** Where a plane begins and how far apart its rows are. */
  datatype Plane = Plane(base: nat, stride: nat)

  /** Where a row begins: base + row * stride. */
  function RowStart(plane: Plane, row: nat): nat {
    if row == 0 then plane.base else RowStart(plane, row - 1) + plane.stride
  }

  lemma {:induction false} RowStartIs(plane: Plane, row: nat)
    ensures RowStart(plane, row) == plane.base + row * plane.stride
  {
    if row > 0 {
      RowStartIs(plane, row - 1);
      NextRow(row - 1, plane.stride);
    }
  }

  function At(plane: Plane, row: nat, col: nat): nat {
    RowStart(plane, row) + col
  }

  lemma {:induction false} RowsAscend(plane: Plane, row: nat, later: nat)
    requires row < later
    ensures RowStart(plane, row) + plane.stride <= RowStart(plane, later)
    decreases later
  {
    if row < later - 1 {
      RowsAscend(plane, row, later - 1);
    }
  }

  /** The first `rows` rows of `width` bytes lie within len bytes. */
  predicate Fits(len: nat, plane: Plane, width: nat, rows: nat) {
    rows == 0 || RowStart(plane, rows - 1) + width <= len
  }

  lemma FirstRowsFit(len: nat, plane: Plane, width: nat, rows: nat, k: nat)
    requires Fits(len, plane, width, rows) && k <= rows
    ensures Fits(len, plane, width, k)
  {
    if 0 < k < rows {
      RowsAscend(plane, k - 1, rows - 1);
    }
  }

  function Put(dst: Chunk, at: nat, bytes: Chunk): (r: Chunk)
    requires at + |bytes| <= |dst|
    ensures |r| == |dst|
    ensures forall i :: 0 <= i < |r| ==> r[i] == if at <= i < at + |bytes| then bytes[i - at] else dst[i]
  {
    seq(|dst|, i requires 0 <= i < |dst| => if at <= i < at + |bytes| then bytes[i - at] else dst[i])
  }

  function CopyRows(src: Chunk, from: Plane, dst: Chunk, to: Plane, width: nat, rows: nat): (r: Chunk)
    requires Fits(|src|, from, width, rows) && Fits(|dst|, to, width, rows)
    ensures |r| == |dst|
    decreases rows
  {
    if rows == 0 then dst
    else
      FirstRowsFit(|src|, from, width, rows, rows - 1);
      FirstRowsFit(|dst|, to, width, rows, rows - 1);
      var b := RowStart(from, rows - 1);
      Put(CopyRows(src, from, dst, to, width, rows - 1), RowStart(to, rows - 1), src[b..b + width])
  }

  lemma LastRow(src: Chunk, from: Plane, dst: Chunk, to: Plane, width: nat, rows: nat, p: nat)
    requires rows > 0 && p < |dst|
    requires Fits(|src|, from, width, rows) && Fits(|dst|, to, width, rows)
    ensures Fits(|src|, from, width, rows - 1) && Fits(|dst|, to, width, rows - 1)
    ensures var a, b := RowStart(to, rows - 1), RowStart(from, rows - 1);
            CopyRows(src, from, dst, to, width, rows)[p]
            == if a <= p < a + width then src[b + (p - a)] else CopyRows(src, from, dst, to, width, rows - 1)[p]
  {
    FirstRowsFit(|src|, from, width, rows, rows - 1);
    FirstRowsFit(|dst|, to, width, rows, rows - 1);
  }

  /** Every cell of the copied rows holds its source byte. */
  lemma {:induction false} CopiedCell(src: Chunk, from: Plane, dst: Chunk, to: Plane, width: nat, rows: nat,
                                      row: nat, col: nat)
    requires width <= to.stride
    requires Fits(|src|, from, width, rows) && Fits(|dst|, to, width, rows)
    requires row < rows && col < width
    ensures At(to, row, col) < |dst| && At(from, row, col) < |src|
    ensures CopyRows(src, from, dst, to, width, rows)[At(to, row, col)] == src[At(from, row, col)]
    decreases rows
  {
    FirstRowsFit(|src|, from, width, rows, row + 1);
    FirstRowsFit(|dst|, to, width, rows, row + 1);
    LastRow(src, from, dst, to, width, rows, At(to, row, col));
    if row < rows - 1 {
      RowsAscend(to, row, rows - 1);
      CopiedCell(src, from, dst, to, width, rows - 1, row, col);
    }
  }

  /** p lies in none of the rows copied: before the plane, past it, or in its padding. */
  predicate InNoRow(plane: Plane, width: nat, rows: nat, p: nat) {
    forall row :: 0 <= row < rows ==> !(RowStart(plane, row) <= p < RowStart(plane, row) + width)
  }

  /** Every other byte is as it was. */
  lemma {:induction false} UncopiedByte(src: Chunk, from: Plane, dst: Chunk, to: Plane, width: nat, rows: nat, p: nat)
    requires p < |dst| && Fits(|src|, from, width, rows) && Fits(|dst|, to, width, rows)
    requires InNoRow(to, width, rows, p)
    ensures CopyRows(src, from, dst, to, width, rows)[p] == dst[p]
    decreases rows
  {
    if rows > 0 {
      LastRow(src, from, dst, to, width, rows, p);
      UncopiedByte(src, from, dst, to, width, rows - 1, p);
    }
  }

  method CopyBytes(src: array<Byte>, from: nat, dst: array<Byte>, to: nat, n: nat)
    requires src != dst && from + n <= src.Length && to + n <= dst.Length
    modifies dst
    ensures dst[..] == Put(old(dst[..]), to, src[from..from + n])
  {
    var i := 0;
    while i < n
      invariant 0 <= i <= n
      invariant forall p :: 0 <= p < dst.Length ==>
                  dst[p] == if to <= p < to + i then src[from + (p - to)] else old(dst[p])
    {
      dst[to + i] := src[from + i];
      i := i + 1;
    }
  }

  lemma OneMoreRow(src: Chunk, from: Plane, dst: Chunk, to: Plane, width: nat, rows: nat, row: nat)
    requires row < rows && Fits(|src|, from, width, rows) && Fits(|dst|, to, width, rows)
    ensures Fits(|src|, from, width, row) && Fits(|dst|, to, width, row)
    ensures Fits(|src|, from, width, row + 1) && Fits(|dst|, to, width, row + 1)
    ensures var a, b := RowStart(from, row), RowStart(to, row);
            && a + width <= |src| && b + width <= |dst|
            && CopyRows(src, from, dst, to, width, row + 1)
               == Put(CopyRows(src, from, dst, to, width, row), b, src[a..a + width])
  {
    FirstRowsFit(|src|, from, width, rows, row);
    FirstRowsFit(|dst|, to, width, rows, row);
    FirstRowsFit(|src|, from, width, rows, row + 1);
    FirstRowsFit(|dst|, to, width, rows, row + 1);
  }

  method CopyRow(src: array<Byte>, from: Plane, dst: array<Byte>, to: Plane, width: nat, ghost rows: nat,
                 ghost row: nat, a: nat, b: nat, ghost before: Chunk)
    requires src != dst && row < rows && |before| == dst.Length
    requires Fits(src.Length, from, width, rows) && Fits(dst.Length, to, width, rows)
    requires a == RowStart(from, row) && b == RowStart(to, row)
    requires Fits(src.Length, from, width, row) && Fits(dst.Length, to, width, row)
    requires dst[..] == CopyRows(src[..], from, before, to, width, row)
    modifies dst
    ensures Fits(src.Length, from, width, row + 1) && Fits(dst.Length, to, width, row + 1)
    ensures dst[..] == CopyRows(src[..], from, before, to, width, row + 1)
  {
    OneMoreRow(src[..], from, before, to, width, rows, row);
    CopyBytes(src, a, dst, b, width);
  }

  method CopyPlane(src: array<Byte>, from: Plane, dst: array<Byte>, to: Plane, width: nat, rows: nat)
    requires src != dst
    requires Fits(src.Length, from, width, rows) && Fits(dst.Length, to, width, rows)
    modifies dst
    ensures dst[..] == CopyRows(src[..], from, old(dst[..]), to, width, rows)
  {
    ghost var before := dst[..];
    var row, a, b := 0, from.base, to.base;
    while row < rows
      invariant 0 <= row <= rows
      invariant a == RowStart(from, row) && b == RowStart(to, row)
      invariant Fits(src.Length, from, width, row) && Fits(dst.Length, to, width, row)
      invariant dst[..] == CopyRows(src[..], from, before, to, width, row)
    {
      CopyRow(src, from, dst, to, width, rows, row, a, b, before);
      row, a, b := row + 1, a + from.stride, b + to.stride;
    }
  }

  // ----- the virtual height

  /** The source divides in 64 bits and casts the quotient back to 32. */
  function DeriveVirHeight(sizeImage: nat, bytesPerLine: nat, visibleHeight: nat): nat {
    if sizeImage == 0 || bytesPerLine == 0 then visibleHeight
    else Max(sizeImage * 2 / (bytesPerLine * 3) % TWO_TO_THE_32, visibleHeight)
  }

  function SourceStride(bytesPerLine: nat, width: nat): nat {
    if bytesPerLine == 0 then width else bytesPerLine
  }

  // ----- the encoder's padding and the camera's repacking

  function CompactSize(width: nat, height: nat): nat {
    width * height + height / 2 * width
  }

  function YPlane(stride: nat): Plane {
    Plane(0, stride)
  }

  function UvPlane(stride: nat, lines: nat): Plane {
    Plane(stride * lines, stride)
  }

  /** The buffer of an NV12 image with the given stride and line count reaches this far. */
  predicate Holds(len: nat, width: nat, height: nat, stride: nat, lines: nat) {
    && Fits(len, YPlane(stride), width, height)
    && Fits(len, UvPlane(stride, lines), width, height / 2)
  }

  /** Both planes copied from one geometry to another, as both sides do it. */
  function Convert(src: Chunk, fromStride: nat, fromLines: nat, dst: Chunk, toStride: nat, toLines: nat,
                   width: nat, height: nat): (r: Chunk)
    requires width <= toStride
    requires Holds(|src|, width, height, fromStride, fromLines) && Holds(|dst|, width, height, toStride, toLines)
    ensures |r| == |dst|
  {
    var y := CopyRows(src, YPlane(fromStride), dst, YPlane(toStride), width, height);
    CopyRows(src, UvPlane(fromStride, fromLines), y, UvPlane(toStride, toLines), width, height / 2)
  }

  method CopyCompactNv12ToAligned(src: array<Byte>, dst: array<Byte>, width: nat, height: nat,
                                  virWidth: nat, virHeight: nat)
    requires src != dst && width <= virWidth
    requires Holds(src.Length, width, height, width, height)
    requires Holds(dst.Length, width, height, virWidth, virHeight)
    modifies dst
    ensures dst[..] == Convert(src[..], width, height, old(dst[..]), virWidth, virHeight, width, height)
  {
    CopyPlane(src, YPlane(width), dst, YPlane(virWidth), width, height);
    CopyPlane(src, UvPlane(width, height), dst, UvPlane(virWidth, virHeight), width, height / 2);
  }

  /** The copy loops of captureFrame, at the stride and virtual height they derive. */
  method RepackCapturedFrame(src: array<Byte>, outYuv: array<Byte>, width: nat, height: nat,
                             bytesPerLine: nat, sizeImage: nat, frameBytes: nat)
      returns (sourceStride: nat, virHeight: nat)
    requires src != outYuv
    requires Holds(src.Length, width, height, SourceStride(bytesPerLine, width),
                   DeriveVirHeight(if frameBytes == 0 then sizeImage else frameBytes,
                                   SourceStride(bytesPerLine, width), height))
    requires Holds(outYuv.Length, width, height, width, height)
    modifies outYuv
    ensures sourceStride == SourceStride(bytesPerLine, width)
    ensures virHeight == DeriveVirHeight(if frameBytes == 0 then sizeImage else frameBytes, sourceStride, height)
    ensures Holds(src.Length, width, height, sourceStride, virHeight)
    ensures outYuv[..] == Convert(src[..], sourceStride, virHeight, old(outYuv[..]), width, height, width, height)
  {
    sourceStride := if bytesPerLine == 0 then width else bytesPerLine;
    virHeight := DeriveVirHeight(if frameBytes == 0 then sizeImage else frameBytes, sourceStride, height);
    CopyPlane(src, YPlane(sourceStride), outYuv, YPlane(width), width, height);
    CopyPlane(src, UvPlane(sourceStride, virHeight), outYuv, UvPlane(width, height), width, height / 2);
  }

  /** Where each pixel ends up, when the luma rows fit above the chroma plane. */
  lemma ConvertedCells(src: Chunk, fromStride: nat, fromLines: nat, dst: Chunk, toStride: nat, toLines: nat,
                       width: nat, height: nat, row: nat, col: nat)
    requires width <= toStride && height <= toLines
    requires Holds(|src|, width, height, fromStride, fromLines) && Holds(|dst|, width, height, toStride, toLines)
    requires col < width && row < height
    ensures At(YPlane(toStride), row, col) < |dst| && At(YPlane(fromStride), row, col) < |src|
    ensures var r := Convert(src, fromStride, fromLines, dst, toStride, toLines, width, height);
            && r[At(YPlane(toStride), row, col)] == src[At(YPlane(fromStride), row, col)]
            && (row < height / 2 ==>
                  && At(UvPlane(toStride, toLines), row, col) < |dst|
                  && At(UvPlane(fromStride, fromLines), row, col) < |src|
                  && r[At(UvPlane(toStride, toLines), row, col)] == src[At(UvPlane(fromStride, fromLines), row, col)])
  {
    var fromY, toY := YPlane(fromStride), YPlane(toStride);
    var fromUv, toUv := UvPlane(fromStride, fromLines), UvPlane(toStride, toLines);
    var y := CopyRows(src, fromY, dst, toY, width, height);
    CopiedCell(src, fromY, dst, toY, width, height, row, col);
    AboveChroma(toStride, toLines, row, col, width, height / 2);
    UncopiedByte(src, fromUv, y, toUv, width, height / 2, At(toY, row, col));
    if row < height / 2 {
      CopiedCell(src, fromUv, y, toUv, width, height / 2, row, col);
    }
  }

  function LumaIndex(stride: nat, row: nat, col: nat): nat {
    row * stride + col
  }

  /** The chroma rows follow the plane of `lines` luma rows. */
  function ChromaIndex(stride: nat, lines: nat, row: nat, col: nat): nat {
    stride * lines + row * stride + col
  }

  lemma CellIndices(stride: nat, lines: nat, row: nat, col: nat)
    ensures At(YPlane(stride), row, col) == LumaIndex(stride, row, col)
    ensures At(UvPlane(stride, lines), row, col) == ChromaIndex(stride, lines, row, col)
  {
    RowStartIs(YPlane(stride), row);
    RowStartIs(UvPlane(stride, lines), row);
  }

  /** The same with the indices of the two planes spelled out. */
  lemma ConvertedIndices(src: Chunk, fromStride: nat, fromLines: nat, dst: Chunk, toStride: nat, toLines: nat,
                         width: nat, height: nat, row: nat, col: nat)
    requires width <= toStride && height <= toLines
    requires Holds(|src|, width, height, fromStride, fromLines) && Holds(|dst|, width, height, toStride, toLines)
    requires col < width && row < height
    ensures LumaIndex(toStride, row, col) < |dst| && LumaIndex(fromStride, row, col) < |src|
    ensures row < height / 2 ==>
              ChromaIndex(toStride, toLines, row, col) < |dst| && ChromaIndex(fromStride, fromLines, row, col) < |src|
    ensures var r := Convert(src, fromStride, fromLines, dst, toStride, toLines, width, height);
            && r[LumaIndex(toStride, row, col)] == src[LumaIndex(fromStride, row, col)]
            && (row < height / 2 ==>
                  r[ChromaIndex(toStride, toLines, row, col)] == src[ChromaIndex(fromStride, fromLines, row, col)])
  {
    ConvertedCells(src, fromStride, fromLines, dst, toStride, toLines, width, height, row, col);
    CellIndices(fromStride, fromLines, row, col);
    CellIndices(toStride, toLines, row, col);
  }

  lemma {:induction false} RowsFollowBase(plane: Plane, row: nat)
    ensures plane.base <= RowStart(plane, row)
  {
    if row > 0 {
      RowsFollowBase(plane, row - 1);
    }
  }

  /** The chroma plane begins where one more luma line would. */
  lemma ChromaBase(stride: nat, lines: nat)
    ensures UvPlane(stride, lines).base == RowStart(YPlane(stride), lines)
  {
    RowStartIs(YPlane(stride), lines);
    assert lines * stride == stride * lines;
  }

  lemma AboveChroma(stride: nat, lines: nat, row: nat, col: nat, width: nat, rows: nat)
    requires row < lines && col < stride
    ensures InNoRow(UvPlane(stride, lines), width, rows, At(YPlane(stride), row, col))
  {
    RowsAscend(YPlane(stride), row, lines);
    ChromaBase(stride, lines);
    forall r | 0 <= r < rows ensures UvPlane(stride, lines).base <= RowStart(UvPlane(stride, lines), r) {
      RowsFollowBase(UvPlane(stride, lines), r);
    }
  }

  lemma CompactHolds(width: nat, height: nat)
    ensures Holds(CompactSize(width, height), width, height, width, height)
  {
    assert width * height == height * width;
    if height > 0 {
      RowStartIs(YPlane(width), height - 1);
      NextRow(height - 1, width);
    }
    if height / 2 > 0 {
      RowStartIs(UvPlane(width, height), height / 2 - 1);
      NextRow(height / 2 - 1, width);
    }
  }

  /** Converting to another geometry and back keeps a compact frame's byte at each cell. */
  lemma ByteReturns(frame: Chunk, padded: Chunk, out: Chunk, width: nat, height: nat, stride: nat, lines: nat,
                    row: nat, col: nat)
    requires width <= stride && height <= lines && row < height && col < width
    requires |frame| == |out| == CompactSize(width, height)
    requires Holds(|frame|, width, height, width, height) && Holds(|padded|, width, height, stride, lines)
    ensures At(YPlane(width), row, col) < |frame|
    ensures var back := Convert(Convert(frame, width, height, padded, stride, lines, width, height),
                                stride, lines, out, width, height, width, height);
            && back[At(YPlane(width), row, col)] == frame[At(YPlane(width), row, col)]
            && (row < height / 2 ==>
                  && At(UvPlane(width, height), row, col) < |frame|
                  && back[At(UvPlane(width, height), row, col)] == frame[At(UvPlane(width, height), row, col)])
  {
    var mid := Convert(frame, width, height, padded, stride, lines, width, height);
    ConvertedCells(frame, width, height, padded, stride, lines, width, height, row, col);
    ConvertedCells(mid, stride, lines, out, width, height, width, height, row, col);
  }

  /** Every byte of a compact frame is a luma or a chroma cell. */
  lemma CompactCell(width: nat, height: nat, p: nat) returns (chroma: bool, row: nat, col: nat)
    requires p < CompactSize(width, height)
    ensures col < width && row < (if chroma then height / 2 else height)
    ensures p == if chroma then At(UvPlane(width, height), row, col) else At(YPlane(width), row, col)
  {
    assert width * height == height * width;
    chroma := p >= width * height;
    var q := if chroma then p - width * height else p;
    row, col := CellOf(q, width);
    RowBelow(q, width, if chroma then height / 2 else height);
    RowStartIs(if chroma then UvPlane(width, height) else YPlane(width), row);
  }

  /** Padding a compact frame and repacking it at the same stride and virtual height gives
      back the frame, byte for byte, whatever the two buffers held before. */
  lemma PaddingRoundTrip(frame: Chunk, padded: Chunk, out: Chunk, width: nat, height: nat, stride: nat, lines: nat)
    requires width <= stride && height <= lines
    requires |frame| == |out| == CompactSize(width, height)
    requires Holds(|padded|, width, height, stride, lines)
    ensures Holds(|frame|, width, height, width, height)
    ensures Convert(Convert(frame, width, height, padded, stride, lines, width, height),
                    stride, lines, out, width, height, width, height) == frame
  {
    CompactHolds(width, height);
    var back := Convert(Convert(frame, width, height, padded, stride, lines, width, height),
                        stride, lines, out, width, height, width, height);
    forall p | 0 <= p < |frame| ensures back[p] == frame[p] {
      var chroma, row, col := CompactCell(width, height, p);
      ByteReturns(frame, padded, out, width, height, stride, lines, row, col);
    }
  }

  // ----- properties of the virtual height

  lemma DivideExactly(n: nat, d: nat, q: nat, r: nat)
    requires r < d && n == q * d + r
    ensures n / d == q
  {
    CellUnique(q, r, d);
  }

  /** The cast of the quotient never truncates. */
  lemma NoTruncation(sizeImage: nat, bytesPerLine: nat)
    requires sizeImage < TWO_TO_THE_32 && 0 < bytesPerLine
    ensures sizeImage * 2 / (bytesPerLine * 3) < TWO_TO_THE_32
  {
    var q, r := CellOf(sizeImage * 2, bytesPerLine * 3);
    MulGrows(3, bytesPerLine * 3, q);
  }

  /** The quotient derive_vir_height takes of the byte count of an image of `lines` rows. */
  lemma DerivedQuotient(stride: nat, lines: nat)
    requires 0 < stride && 0 < lines && 3 * (stride * lines) / 2 < TWO_TO_THE_32
    ensures 3 * (stride * lines) / 2 * 2 / (stride * 3) % TWO_TO_THE_32
         == if (stride * lines) % 2 == 0 then lines else lines - 1
  {
    var area, d := stride * lines, stride * 3;
    var size := 3 * area / 2;
    NoTruncation(size, stride);
    assert 3 * area == lines * d;
    if area % 2 == 0 {
      DivideExactly(size * 2, d, lines, 0);
    } else {
      NextRow(lines - 1, d);
      DivideExactly(size * 2, d, lines - 1, d - 1);
    }
  }

  lemma NotEmptyImage(stride: nat, lines: nat)
    requires 0 < stride && 0 < lines
    ensures 0 < 3 * (stride * lines) / 2
  {
    MulGrows(1, lines, stride);
    assert lines * stride == stride * lines;
  }

  /** The byte count of an NV12 image of `lines` rows gives back `lines`, exactly when
      half a row is not lost to rounding or there are no hidden lines to recover. */
  lemma VirHeightRecovered(stride: nat, lines: nat, height: nat)
    requires 0 < stride && height <= lines && 3 * (stride * lines) / 2 < TWO_TO_THE_32
    ensures DeriveVirHeight(3 * (stride * lines) / 2, stride, height) == lines
       <==> (stride * lines) % 2 == 0 || lines == height
  {
    if lines == 0 {
      assert stride * lines == 0;
    } else {
      NotEmptyImage(stride, lines);
      DerivedQuotient(stride, lines);
    }
  }

  lemma OneLineShort(stride: nat, lines: nat, height: nat)
    requires 0 < stride && height < lines && (stride * lines) % 2 == 1 && 3 * (stride * lines) / 2 < TWO_TO_THE_32
    ensures DeriveVirHeight(3 * (stride * lines) / 2, stride, height) == lines - 1
  {
    NotEmptyImage(stride, lines);
    DerivedQuotient(stride, lines);
  }

  lemma DerivedLinesFit(count: nat, stride: nat, height: nat)
    requires 0 < stride && count < TWO_TO_THE_32 && 3 * (stride * height) <= 2 * count
    ensures var lines := DeriveVirHeight(count, stride, height);
            height <= lines && 3 * (stride * lines) <= 2 * count
  {
    if count > 0 {
      NoTruncation(count, stride);
      var q, r := CellOf(count * 2, stride * 3);
      assert q * (stride * 3) == 3 * (stride * q);
    }
  }

  lemma LumaFits(count: nat, width: nat, height: nat, stride: nat, lines: nat)
    requires width <= stride && height <= lines && lines * stride <= count
    ensures Fits(count, YPlane(stride), width, height)
  {
    if height > 0 {
      RowStartIs(YPlane(stride), height - 1);
      RowsApart(height - 1, lines, stride);
    }
  }

  lemma HalfRows(half: nat, lines: nat, stride: nat)
    requires 2 * half <= lines
    ensures 2 * (half * stride) <= lines * stride
  {
    MulGrows(2 * half, lines, stride);
  }

  lemma ChromaFits(count: nat, width: nat, height: nat, stride: nat, lines: nat)
    requires width <= stride && height <= lines && stride * lines + height / 2 * stride <= count
    ensures Fits(count, UvPlane(stride, lines), width, height / 2)
  {
    if height / 2 > 0 {
      RowStartIs(UvPlane(stride, lines), height / 2 - 1);
      NextRow(height / 2 - 1, stride);
    }
  }

  /** Both planes of an NV12 image with the given lines fit when 3/2 * stride * lines bytes do. */
  lemma PlanesFit(count: nat, width: nat, height: nat, stride: nat, lines: nat)
    requires width <= stride && height <= lines && 3 * (stride * lines) <= 2 * count
    ensures Holds(count, width, height, stride, lines)
  {
    assert lines * stride == stride * lines;
    HalfRows(height / 2, lines, stride);
    LumaFits(count, width, height, stride, lines);
    ChromaFits(count, width, height, stride, lines);
  }

  /** Where the last byte captureFrame reads ends when there are no hidden lines. */
  function ReadsEnd(width: nat, height: nat, stride: nat): nat {
    if height == 0 then 0
    else if height == 1 then width
    else stride * height + (height / 2 - 1) * stride + width
  }

  /** Hidden lines only push the chroma plane further out. */
  lemma ReadsReach(count: nat, width: nat, height: nat, stride: nat, lines: nat)
    requires height <= lines && Holds(count, width, height, stride, lines)
    ensures ReadsEnd(width, height, stride) <= count
  {
    if height >= 2 {
      RowStartIs(UvPlane(stride, lines), height / 2 - 1);
      MulGrows(height, lines, stride);
      assert lines * stride == stride * lines && height * stride == stride * height;
    }
  }

  lemma ReadsSuffice(count: nat, width: nat, height: nat, stride: nat)
    requires width <= stride && ReadsEnd(width, height, stride) <= count
    ensures Holds(count, width, height, stride, height)
  {
    if height >= 2 {
      RowStartIs(UvPlane(stride, height), height / 2 - 1);
      RowStartIs(YPlane(stride), height - 1);
      NextRow(height - 1, stride);
      assert height * stride == stride * height;
    }
  }

  lemma DerivedIs(count: nat, stride: nat, height: nat)
    requires 0 < stride && 0 < count < TWO_TO_THE_32
    ensures DeriveVirHeight(count, stride, height) == Max(count * 2 / (stride * 3), height)
  {
    NoTruncation(count, stride);
  }

  lemma Tripled(stride: nat, height: nat)
    ensures height * (stride * 3) == 3 * (stride * height)
  {
  }

  /** Below 3/2 * stride * height bytes no hidden lines are derived. */
  lemma ShortFrameLines(count: nat, stride: nat, height: nat)
    requires 0 < stride && count < TWO_TO_THE_32 && 2 * count < 3 * (stride * height)
    ensures DeriveVirHeight(count, stride, height) == height
  {
    assert count * 2 / (stride * 3) < height by {
      Tripled(stride, height);
      RowBelow(count * 2, stride * 3, height);
    }
    if count > 0 {
      DerivedIs(count, stride, height);
    }
  }

  lemma FullFrameReaches(width: nat, height: nat, stride: nat, count: nat)
    requires width <= stride && 3 * (stride * height) <= 2 * count
    ensures ReadsEnd(width, height, stride) <= count
  {
    PlanesFit(count, width, height, stride, height);
    ReadsReach(count, width, height, stride, height);
  }

  /** Every byte read lies inside the frame's byte count exactly when the last chroma row
      would with no hidden lines; 3/2 * stride * height bytes are always enough. */
  lemma CaptureReadsInside(count: nat, width: nat, height: nat, stride: nat)
    requires 0 < stride && width <= stride && count < TWO_TO_THE_32
    ensures Holds(count, width, height, stride, DeriveVirHeight(count, stride, height))
       <==> ReadsEnd(width, height, stride) <= count
    ensures 3 * (stride * height) <= 2 * count ==> ReadsEnd(width, height, stride) <= count
  {
    var lines := DeriveVirHeight(count, stride, height);
    if 3 * (stride * height) <= 2 * count {
      DerivedLinesFit(count, stride, height);
      PlanesFit(count, width, height, stride, lines);
      FullFrameReaches(width, height, stride, count);
    } else {
      ShortFrameLines(count, stride, height);
      if ReadsEnd(width, height, stride) <= count {
        ReadsSuffice(count, width, height, stride);
      } else if Holds(count, width, height, stride, lines) {
        ReadsReach(count, width, height, stride, lines);
      }
    }
  }

  /** The bytes read are those of the rows, so Holds is about them exactly. */
  lemma HoldsIsReads(count: nat, width: nat, height: nat, stride: nat, lines: nat)
    requires 0 < width <= stride
    ensures Holds(count, width, height, stride, lines)
       <==> && (forall row, col :: 0 <= row < height && 0 <= col < width ==> At(YPlane(stride), row, col) < count)
            && (forall row, col :: 0 <= row < height / 2 && 0 <= col < width ==>
                  At(UvPlane(stride, lines), row, col) < count)
  {
    FitsIsReads(count, YPlane(stride), width, height);
    FitsIsReads(count, UvPlane(stride, lines), width, height / 2);
  }

  lemma FitsIsReads(count: nat, plane: Plane, width: nat, rows: nat)
    requires 0 < width <= plane.stride
    ensures Fits(count, plane, width, rows)
       <==> forall row, col :: 0 <= row < rows && 0 <= col < width ==> At(plane, row, col) < count
  {
    if Fits(count, plane, width, rows) {
      forall row, col | 0 <= row < rows && 0 <= col < width ensures At(plane, row, col) < count {
        FirstRowsFit(count, plane, width, rows, row + 1);
      }
    } else {
      assert At(plane, rows - 1, width - 1) >= count;
    }
  }

  /** A frame of 640 by 480 pixels in rows of 704 bytes: one byte less than the last chroma
      row needs, and the repacking would read past the frame. */
  lemma TooShortFrame()
    ensures ReadsEnd(640, 480, 704) == 506816
    ensures !Holds(506815, 640, 480, 704, DeriveVirHeight(506815, 704, 480))
  {
    CaptureReadsInside(506815, 640, 480, 704);
  }

  // ----- padding, capturing and repacking together

  /** A frame padded to a geometry and captured with the byte count of that geometry comes
      back unchanged when the area is even or no lines are hidden. */
  lemma PaddedThenCaptured(frame: Chunk, padded: Chunk, out: Chunk, width: nat, height: nat, stride: nat, lines: nat)
    requires 0 < stride && width <= stride && height <= lines && 3 * (stride * lines) / 2 < TWO_TO_THE_32
    requires (stride * lines) % 2 == 0 || lines == height
    requires |frame| == |out| == CompactSize(width, height)
    requires Holds(|padded|, width, height, stride, lines)
    ensures var virHeight := DeriveVirHeight(3 * (stride * lines) / 2, stride, height);
            && Holds(|frame|, width, height, width, height)
            && Holds(|padded|, width, height, stride, virHeight)
            && Convert(Convert(frame, width, height, padded, stride, lines, width, height),
                       stride, virHeight, out, width, height, width, height) == frame
  {
    VirHeightRecovered(stride, lines, height);
    PaddingRoundTrip(frame, padded, out, width, height, stride, lines);
  }

  /** Where the last of the hidden lines begins. */
  function LastHidden(stride: nat, lines: nat): nat
    requires lines > 0
  {
    stride * (lines - 1)
  }

  /** Otherwise the last hidden line is taken for the first chroma row: the frame is not
      given back if its first chroma byte differs from the first padding byte of that line. */
  lemma HiddenLineRead(frame: Chunk, padded: Chunk, out: Chunk, width: nat, height: nat, stride: nat, lines: nat)
    requires 0 < width <= stride && 2 <= height < lines && 3 * (stride * lines) / 2 < TWO_TO_THE_32
    requires (stride * lines) % 2 == 1
    requires |frame| == |out| == CompactSize(width, height)
    requires Holds(|padded|, width, height, stride, lines)
    ensures var virHeight := DeriveVirHeight(3 * (stride * lines) / 2, stride, height);
            && virHeight == lines - 1
            && Holds(|frame|, width, height, width, height)
            && Holds(|padded|, width, height, stride, virHeight)
            && LastHidden(stride, lines) < |padded| && UvPlane(width, height).base < |frame|
            && Convert(Convert(frame, width, height, padded, stride, lines, width, height),
                       stride, virHeight, out, width, height, width, height)[UvPlane(width, height).base]
               == padded[LastHidden(stride, lines)]
  {
    OneLineShort(stride, lines, height);
    CompactHolds(width, height);
    FewerLinesHold(|padded|, width, height, stride, lines);
    HiddenLineKept(frame, padded, width, height, stride, lines);
    FirstChromaByte(Convert(frame, width, height, padded, stride, lines, width, height), out,
                    width, height, stride, lines - 1);
  }

  lemma FirstChromaByte(src: Chunk, out: Chunk, width: nat, height: nat, stride: nat, lines: nat)
    requires 0 < width && 2 <= height
    requires Holds(|src|, width, height, stride, lines) && Holds(|out|, width, height, width, height)
    ensures UvPlane(stride, lines).base < |src| && UvPlane(width, height).base < |out|
    ensures Convert(src, stride, lines, out, width, height, width, height)[UvPlane(width, height).base]
         == src[UvPlane(stride, lines).base]
  {
    ConvertedCells(src, stride, lines, out, width, height, width, height, 0, 0);
  }

  lemma FewerLinesHold(count: nat, width: nat, height: nat, stride: nat, lines: nat)
    requires 2 <= height < lines && Holds(count, width, height, stride, lines)
    ensures Holds(count, width, height, stride, lines - 1)
  {
    RowStartIs(UvPlane(stride, lines), height / 2 - 1);
    RowStartIs(UvPlane(stride, lines - 1), height / 2 - 1);
    assert stride * (lines - 1) <= stride * lines;
  }

  lemma ConvertKeeps(src: Chunk, fromStride: nat, fromLines: nat, dst: Chunk, toStride: nat, toLines: nat,
                     width: nat, height: nat, p: nat)
    requires width <= toStride && p < |dst|
    requires Holds(|src|, width, height, fromStride, fromLines) && Holds(|dst|, width, height, toStride, toLines)
    requires InNoRow(YPlane(toStride), width, height, p) && InNoRow(UvPlane(toStride, toLines), width, height / 2, p)
    ensures Convert(src, fromStride, fromLines, dst, toStride, toLines, width, height)[p] == dst[p]
  {
    var y := CopyRows(src, YPlane(fromStride), dst, YPlane(toStride), width, height);
    UncopiedByte(src, YPlane(fromStride), dst, YPlane(toStride), width, height, p);
    UncopiedByte(src, UvPlane(fromStride, fromLines), y, UvPlane(toStride, toLines), width, height / 2, p);
  }

  lemma BelowTheRows(plane: Plane, width: nat, rows: nat, later: nat)
    requires width <= plane.stride && rows <= later
    ensures InNoRow(plane, width, rows, RowStart(plane, later))
  {
    forall row | 0 <= row < rows ensures RowStart(plane, row) + plane.stride <= RowStart(plane, later) {
      RowsAscend(plane, row, later);
    }
  }

  /** Padding leaves the hidden lines alone. */
  lemma HiddenLineKept(frame: Chunk, padded: Chunk, width: nat, height: nat, stride: nat, lines: nat)
    requires 0 < width <= stride && 2 <= height < lines
    requires Holds(|frame|, width, height, width, height) && Holds(|padded|, width, height, stride, lines)
    ensures LastHidden(stride, lines) < |padded|
    ensures Convert(frame, width, height, padded, stride, lines, width, height)[LastHidden(stride, lines)]
         == padded[LastHidden(stride, lines)]
  {
    var p := RowStart(YPlane(stride), lines - 1);
    assert p == stride * (lines - 1) by {
      RowStartIs(YPlane(stride), lines - 1);
    }
    BelowTheRows(YPlane(stride), width, height, lines - 1);
    AboveChroma(stride, lines, lines - 1, 0, width, height / 2);
    assert p < |padded| by {
      BeforeChroma(|padded|, width, height, stride, lines);
    }
    ConvertKeeps(frame, width, height, padded, stride, lines, width, height, p);
  }

  lemma BeforeChroma(count: nat, width: nat, height: nat, stride: nat, lines: nat)
    requires 0 < width <= stride && 2 <= height < lines && Holds(count, width, height, stride, lines)
    ensures RowStart(YPlane(stride), lines - 1) < count
  {
    ChromaBase(stride, lines);
    RowsFollowBase(UvPlane(stride, lines), height / 2 - 1);
  }

  /** The driver's report of a frame's geometry: a row length or 0 for unpadded rows, and a byte
      count in the buffer or, where that is 0, in the format. */
  predicate Reports(bytesPerLine: nat, sizeImage: nat, frameBytes: nat, width: nat, stride: nat, lines: nat) {
    && (bytesPerLine == stride || (bytesPerLine == 0 && stride == width))
    && 3 * (stride * lines) / 2 == if frameBytes == 0 then sizeImage else frameBytes
  }

  lemma ReportedGeometry(bytesPerLine: nat, sizeImage: nat, frameBytes: nat, width: nat, height: nat,
                         stride: nat, lines: nat)
    requires 0 < stride && Reports(bytesPerLine, sizeImage, frameBytes, width, stride, lines)
    ensures SourceStride(bytesPerLine, width) == stride
    ensures DeriveVirHeight(if frameBytes == 0 then sizeImage else frameBytes, stride, height)
         == DeriveVirHeight(3 * (stride * lines) / 2, stride, height)
  {
  }

  /** Padding a frame and capturing it again through the copy loops of both sides, from what the
      driver reports. */
  method PadThenCapture(frame: array<Byte>, padded: array<Byte>, out: array<Byte>, width: nat, height: nat,
                        stride: nat, lines: nat, bytesPerLine: nat, sizeImage: nat, frameBytes: nat)
    requires frame != padded && padded != out && frame != out
    requires 0 < stride && width <= stride && height <= lines && 3 * (stride * lines) / 2 < TWO_TO_THE_32
    requires (stride * lines) % 2 == 0 || lines == height
    requires frame.Length == out.Length == CompactSize(width, height)
    requires Holds(padded.Length, width, height, stride, lines)
    requires Reports(bytesPerLine, sizeImage, frameBytes, width, stride, lines)
    modifies padded, out
    ensures out[..] == frame[..] == old(frame[..])
  {
    ghost var before, was := padded[..], out[..];
    CompactHolds(width, height);
    ReportedGeometry(bytesPerLine, sizeImage, frameBytes, width, height, stride, lines);
    PaddedThenCaptured(frame[..], before, was, width, height, stride, lines);
    CopyCompactNv12ToAligned(frame, padded, width, height, stride, lines);
    var _, _ := RepackCapturedFrame(padded, out, width, height, bytesPerLine, sizeImage, frameBytes);
  }
}
