/** The detector's preprocessing: an NV12 frame scaled to fit the model's input, converted
    to RGB and centred on a grey ground, with floats taken as reals. */
module Letterbox {
  import opened Bytes
  import opened Grid

  const GREY: Byte := 114

  // ----- geometry

  datatype LetterboxInfo = LetterboxInfo(scale: real, padX: nat, padY: nat, resizedWidth: nat, resizedHeight: nat)

  function Scale(source: Size, target: Size): (scale: real)
    requires source.width > 0 && source.height > 0
  {
    var x, y := target.width as real / source.width as real, target.height as real / source.height as real;
    if y < x then y else x
  }

  /** std::round of a number that is not negative. */
  function Round(x: real): int {
    (x + 0.5).Floor
  }

  function Resized(n: nat, scale: real): nat
    requires scale >= 0.0
  {
    Max(1, Round(n as real * scale))
  }

  /** The source row or column a resized one is taken from. */
  function SourceCoordinate(x: nat, n: nat, scale: real): int
    requires scale > 0.0
  {
    Min(n - 1, (x as real / scale).Floor)
  }

  lemma ScaledFits(n: nat, m: nat, scale: real)
    requires n > 0 && 0.0 <= scale <= m as real / n as real
    ensures n as real * scale <= m as real
  {
  }

  lemma ScaledExactly(n: nat, m: nat)
    requires n > 0
    ensures n as real * (m as real / n as real) == m as real
  {
  }

  lemma QuotientPositive(m: nat, n: nat)
    requires m > 0 && n > 0
    ensures m as real / n as real > 0.0
  {
  }

  lemma RoundWithin(x: real, m: nat)
    requires 0.0 <= x <= m as real
    ensures 0 <= Round(x) <= m && x - 0.5 < Round(x) as real <= x + 0.5
    ensures x == m as real ==> Round(x) == m
  {
  }

  lemma ProductNotNegative(n: nat, scale: real)
    requires scale >= 0.0
    ensures n as real * scale >= 0.0
  {
  }

  /** One axis of the window: it fits, is not empty, and fills the target when this axis
      decides the scale. */
  lemma AxisFits(n: nat, m: nat, scale: real)
    requires n > 0 && m > 0 && 0.0 < scale <= m as real / n as real
    ensures 1 <= Resized(n, scale) <= m
    ensures scale == m as real / n as real ==> Resized(n, scale) == m
  {
    ScaledFits(n, m, scale);
    ProductNotNegative(n, scale);
    RoundWithin(n as real * scale, m);
    if scale == m as real / n as real {
      ScaledExactly(n, m);
    }
  }

  lemma QuotientBelow(x: real, n: real, scale: real)
    requires scale > 0.0 && 0.0 <= x < n * scale
    ensures 0.0 <= x / scale < n
  {
  }

  /** Every resized coordinate comes from inside the source without the clamp. */
  lemma SourceInside(x: nat, n: nat, m: nat, scale: real)
    requires n > 0 && m > 0 && 0.0 < scale <= m as real / n as real && x < Resized(n, scale)
    ensures 0 <= SourceCoordinate(x, n, scale) == (x as real / scale).Floor < n
  {
    ScaledFits(n, m, scale);
    ProductNotNegative(n, scale);
    RoundWithin(n as real * scale, m);
    if x > 0 {
      QuotientBelow(x as real, n as real, scale);
    } else {
      assert 0.0 / scale == 0.0;
    }
  }

  // ----- colour

  datatype Rgb = Rgb(r: Byte, g: Byte, b: Byte)

  function ClampToByte(value: int): Byte {
    if value < 0 then 0 else if value > 255 then 255 else value
  }

  /** The integer conversion; shifting right by 8 rounds down. */
  function ToRgb(y: Byte, u: Byte, v: Byte): Rgb {
    FromYuv(Max(0, y as int - 16), u as int - 128, v as int - 128)
  }

  function FromYuv(c: int, d: int, e: int): Rgb {
    Rgb(ClampToByte((298 * c + 409 * e + 128) / 256),
        ClampToByte((298 * c - 100 * d - 208 * e + 128) / 256),
        ClampToByte((298 * c + 516 * d + 128) / 256))
  }

  /** Neutral chroma gives a grey that spans black to white over the video range. */
  lemma NeutralIsGrey(y: Byte)
    ensures var p := ToRgb(y, 128, 128);
            p.r == p.g == p.b && (y <= 16 ==> p.r == 0) && (y >= 235 ==> p.r == 255)
  {
  }

  /** Within one step of a value given in thousandths, cut to a byte. */
  predicate CloseTo(channel: Byte, thousandths: int) {
    -1000 < 1000 * channel as int - Max(0, Min(thousandths, 255_000)) < 1000
  }

  lemma ShiftRoundsDown(n: int, thousandths: int)
    requires -128_000 < 1000 * (n - 128) - 256 * thousandths < 128_000
    ensures CloseTo(ClampToByte(n / 256), thousandths)
  {
  }

  /** Each channel is within one step of the conversion of Recommendation ITU-R BT.601 for
      video-range luma and chroma, with luma below black counting as black: 1.164 Y + 1.596 V,
      1.164 Y - 0.392 U - 0.813 V and 1.164 Y + 2.017 U, from Y - 16, U - 128 and V - 128. */
  lemma ConvertsAsBt601(y: Byte, u: Byte, v: Byte)
    ensures AsBt601(ToRgb(y, u, v), Max(0, y as int - 16), u as int - 128, v as int - 128)
  {
    FromYuvIsBt601(Max(0, y as int - 16), u as int - 128, v as int - 128);
  }

  predicate AsBt601(p: Rgb, c: int, d: int, e: int) {
    && CloseTo(p.r, 1164 * c + 1596 * e)
    && CloseTo(p.g, 1164 * c - 392 * d - 813 * e)
    && CloseTo(p.b, 1164 * c + 2017 * d)
  }

  lemma FromYuvIsBt601(c: int, d: int, e: int)
    requires 0 <= c < 240 && -128 <= d < 128 && -128 <= e < 128
    ensures AsBt601(FromYuv(c, d, e), c, d, e)
  {
    RedCloses(c, e);
    GreenCloses(c, d, e);
    BlueCloses(c, d);
  }

  lemma RedCloses(c: int, e: int)
    requires 0 <= c < 240 && -128 <= e < 128
    ensures CloseTo(ClampToByte((298 * c + 409 * e + 128) / 256), 1164 * c + 1596 * e)
  {
    ShiftRoundsDown(298 * c + 409 * e + 128, 1164 * c + 1596 * e);
  }

  lemma GreenCloses(c: int, d: int, e: int)
    requires 0 <= c < 240 && -128 <= d < 128 && -128 <= e < 128
    ensures CloseTo(ClampToByte((298 * c - 100 * d - 208 * e + 128) / 256), 1164 * c - 392 * d - 813 * e)
  {
    ShiftRoundsDown(298 * c - 100 * d - 208 * e + 128, 1164 * c - 392 * d - 813 * e);
  }

  lemma BlueCloses(c: int, d: int)
    requires 0 <= c < 240 && -128 <= d < 128
    ensures CloseTo(ClampToByte((298 * c + 516 * d + 128) / 256), 1164 * c + 2017 * d)
  {
    ShiftRoundsDown(298 * c + 516 * d + 128, 1164 * c + 2017 * d);
  }

  // ----- reading the frame

  /** Where the code looks for the chroma pair of a pixel's 2x2 block. */
  function ChromaAt(source: Size, row: nat, col: nat): nat {
    source.height * source.width + row / 2 * source.width + (col - col % 2)
  }

  /** A source pixel whose luma and chroma bytes all lie inside the frame's buffer. */
  predicate Readable(nv12: Chunk, source: Size, row: int, col: int) {
    Inside(source, row, col) && ChromaAt(source, row, col) + 1 < |nv12|
  }

  /** The colour of a source pixel: its luma, and the chroma pair of its 2x2 block. */
  function SourcePixel(nv12: Chunk, source: Size, row: int, col: int): Rgb
    requires Readable(nv12, source, row, col)
  {
    var uv := ChromaAt(source, row, col);
    ToRgb(nv12[Cell(source, row, col)], nv12[uv], nv12[uv + 1])
  }

  /** The byte count the camera gives its frames. */
  function FrameSize(source: Size): nat {
    source.width * source.height * 3 / 2
  }

  /** An even-sized picture in NV12: the luma rows, then for each 2x2 block, row by row, its
      U and its V. */
  ghost predicate IsNv12(nv12: Chunk, source: Size, y: (int, int) -> Byte, u: (int, int) -> Byte,
                         v: (int, int) -> Byte) {
    && source.width % 2 == 0 && source.height % 2 == 0 && |nv12| == FrameSize(source)
    && (forall row, col :: Inside(source, row, col) ==> nv12[Cell(source, row, col)] == y(row, col))
    && forall r, c :: Inside(Blocks(source), r, c) ==>
         var pair := source.height * source.width + 2 * Cell(Blocks(source), r, c);
         pair + 1 < |nv12| && nv12[pair] == u(r, c) && nv12[pair + 1] == v(r, c)
  }

  function Blocks(source: Size): Size {
    Size(source.width / 2, source.height / 2)
  }

  lemma PairOfBlock(source: Size, row: nat, col: nat)
    requires Inside(source, row, col) && source.width % 2 == 0 && source.height % 2 == 0
    ensures Inside(Blocks(source), row / 2, col / 2)
    ensures ChromaAt(source, row, col) == source.height * source.width + 2 * Cell(Blocks(source), row / 2, col / 2)
  {
    var half := source.width / 2;
    assert row / 2 * source.width == 2 * (row / 2 * half) by {
      assert source.width == 2 * half;
    }
  }

  /** A pixel's colour comes from its own luma and its block's U and V, in that order. */
  lemma PixelOfNv12(nv12: Chunk, source: Size, y: (int, int) -> Byte, u: (int, int) -> Byte, v: (int, int) -> Byte,
                    row: nat, col: nat)
    requires IsNv12(nv12, source, y, u, v) && Inside(source, row, col)
    ensures Readable(nv12, source, row, col)
    ensures SourcePixel(nv12, source, row, col) == ToRgb(y(row, col), u(row / 2, col / 2), v(row / 2, col / 2))
  {
    PairOfBlock(source, row, col);
    assert Inside(Blocks(source), row / 2, col / 2);
  }

  /** Every source pixel that a window pixel is taken from can be read. */
  predicate Reads(nv12: Chunk, source: Size, g: LetterboxInfo)
    requires g.scale > 0.0
  {
    forall y, x :: 0 <= y < g.resizedHeight && 0 <= x < g.resizedWidth ==>
      Readable(nv12, source, SourceCoordinate(y, source.height, g.scale), SourceCoordinate(x, source.width, g.scale))
  }

  // ----- the picture made

  function RgbAt(rgb: Chunk, p: nat): Rgb
    requires 3 * p + 2 < |rgb|
  {
    Rgb(rgb[3 * p], rgb[3 * p + 1], rgb[3 * p + 2])
  }

  ghost predicate Pictures(rgb: Chunk, target: Size, pixel: (int, int) -> Rgb) {
    && |rgb| == 3 * (target.height * target.width)
    && forall row, col :: Inside(target, row, col) ==> RgbAt(rgb, Cell(target, row, col)) == pixel(row, col)
  }

  lemma PicturesSame(rgb: Chunk, target: Size, pixel: (int, int) -> Rgb, same: (int, int) -> Rgb)
    requires Pictures(rgb, target, pixel)
    requires forall row, col :: Inside(target, row, col) ==> pixel(row, col) == same(row, col)
    ensures Pictures(rgb, target, same)
  {
  }

  function Ground(): (int, int) -> Rgb {
    (row, col) => Rgb(GREY, GREY, GREY)
  }

  function With(pixel: (int, int) -> Rgb, row: int, col: int, value: Rgb): (int, int) -> Rgb {
    (r, c) => if r == row && c == col then value else pixel(r, c)
  }

  method SetPixel(rgb: array<Byte>, target: Size, row: int, col: int, value: Rgb, ghost pixel: (int, int) -> Rgb)
    requires Inside(target, row, col) && Pictures(rgb[..], target, pixel)
    modifies rgb
    ensures Pictures(rgb[..], target, With(pixel, row, col, value))
  {
    var at := Cell(target, row, col) * 3;
    ghost var before := rgb[..];
    rgb[at], rgb[at + 1], rgb[at + 2] := value.r, value.g, value.b;
    forall r, c | Inside(target, r, c)
      ensures RgbAt(rgb[..], Cell(target, r, c)) == With(pixel, row, col, value)(r, c)
    {
      CellsDiffer(target, row, col, r, c);
      assert RgbAt(before, Cell(target, r, c)) == pixel(r, c);
    }
  }

  function Geometry(source: Size, target: Size): LetterboxInfo
    requires source.width > 0 && source.height > 0 && target.width > 0 && target.height > 0
  {
    QuotientPositive(target.width, source.width);
    QuotientPositive(target.height, source.height);
    var scale := Scale(source, target);
    AxisFits(source.width, target.width, scale);
    AxisFits(source.height, target.height, scale);
    var w, h := Resized(source.width, scale), Resized(source.height, scale);
    LetterboxInfo(scale, (target.width - w) / 2, (target.height - h) / 2, w, h)
  }

  /** The window lies inside the target, centred to half a pixel, touches two opposite
      edges of it, and draws on source pixels only, without the clamp. */
  predicate Fitting(source: Size, target: Size, g: LetterboxInfo) {
    && g.scale > 0.0 && g.resizedWidth >= 1 && g.resizedHeight >= 1
    && 2 * g.padX + g.resizedWidth <= target.width <= 2 * g.padX + g.resizedWidth + 1
    && 2 * g.padY + g.resizedHeight <= target.height <= 2 * g.padY + g.resizedHeight + 1
    && (g.resizedWidth == target.width || g.resizedHeight == target.height)
    && (forall x :: 0 <= x < g.resizedWidth ==>
          0 <= SourceCoordinate(x, source.width, g.scale) == (x as real / g.scale).Floor < source.width)
    && (forall y :: 0 <= y < g.resizedHeight ==>
          0 <= SourceCoordinate(y, source.height, g.scale) == (y as real / g.scale).Floor < source.height)
  }

  /** The nearest whole number, halves going up. */
  predicate Nearest(n: int, x: real) {
    x - 0.5 < n as real <= x + 0.5
  }

  /** A source side of n pixels at the given scale: rounded, but never less than a pixel. */
  predicate SideScaled(resized: nat, n: nat, scale: real) {
    if n as real * scale < 0.5 then resized == 1 else Nearest(resized, n as real * scale)
  }

  /** Both sides fit at this scale and one fills the target: no larger scale would do. */
  predicate FillsOneAxis(source: Size, target: Size, scale: real) {
    var w, h := source.width as real * scale, source.height as real * scale;
    && w <= target.width as real && h <= target.height as real
    && (w == target.width as real || h == target.height as real)
  }

  /** The scale is the largest at which both sides fit, and both sides are resized by it. */
  predicate ScaledToFit(source: Size, target: Size, g: LetterboxInfo) {
    && FillsOneAxis(source, target, g.scale)
    && SideScaled(g.resizedWidth, source.width, g.scale) && SideScaled(g.resizedHeight, source.height, g.scale)
  }

  lemma SideIsScaled(n: nat, scale: real)
    requires scale > 0.0
    ensures SideScaled(Resized(n, scale), n, scale)
  {
    ProductNotNegative(n, scale);
  }

  /** The proportions are kept: one scale for both axes, as large as the target allows. */
  lemma WindowIsScaled(source: Size, target: Size)
    requires source.width > 0 && source.height > 0 && target.width > 0 && target.height > 0
    ensures ScaledToFit(source, target, Geometry(source, target))
  {
    var g := Geometry(source, target);
    LargestScale(source, target);
    ScaledBy(source, target, g);
  }

  lemma ScaledBy(source: Size, target: Size, g: LetterboxInfo)
    requires g.scale > 0.0
    requires FillsOneAxis(source, target, g.scale)
    requires g.resizedWidth == Resized(source.width, g.scale) && g.resizedHeight == Resized(source.height, g.scale)
    ensures ScaledToFit(source, target, g)
  {
    SideIsScaled(source.width, g.scale);
    SideIsScaled(source.height, g.scale);
  }

  lemma LargestScale(source: Size, target: Size)
    requires source.width > 0 && source.height > 0 && target.width > 0 && target.height > 0
    ensures Scale(source, target) > 0.0 && FillsOneAxis(source, target, Scale(source, target))
  {
    var sx, sy := target.width as real / source.width as real, target.height as real / source.height as real;
    QuotientPositive(target.width, source.width);
    QuotientPositive(target.height, source.height);
    if sy < sx {
      ScaledFits(source.width, target.width, sy);
      ScaledExactly(source.height, target.height);
    } else {
      ScaledFits(source.height, target.height, sx);
      ScaledExactly(source.width, target.width);
    }
  }

  lemma WindowFits(source: Size, target: Size)
    requires source.width > 0 && source.height > 0 && target.width > 0 && target.height > 0
    ensures Fitting(source, target, Geometry(source, target))
  {
    QuotientPositive(target.width, source.width);
    QuotientPositive(target.height, source.height);
    var g := Geometry(source, target);
    AxisFits(source.width, target.width, g.scale);
    AxisFits(source.height, target.height, g.scale);
    forall x | 0 <= x < g.resizedWidth
      ensures 0 <= SourceCoordinate(x, source.width, g.scale) == (x as real / g.scale).Floor < source.width
    {
      SourceInside(x, source.width, target.width, g.scale);
    }
    forall y | 0 <= y < g.resizedHeight
      ensures 0 <= SourceCoordinate(y, source.height, g.scale) == (y as real / g.scale).Floor < source.height
    {
      SourceInside(y, source.height, target.height, g.scale);
    }
  }

  // ----- filling the picture

  /** Whether a target pixel shows the frame, and not the ground. */
  predicate InWindow(g: LetterboxInfo, row: int, col: int) {
    g.padY <= row < g.padY + g.resizedHeight && g.padX <= col < g.padX + g.resizedWidth
  }

  /** The finished picture: the nearest source pixel's colour in the window, grey outside. */
  function Boxed(nv12: Chunk, source: Size, g: LetterboxInfo, row: int, col: int): Rgb
    requires g.scale > 0.0 && Reads(nv12, source, g)
  {
    if !InWindow(g, row, col) then Rgb(GREY, GREY, GREY)
    else SourcePixel(nv12, source, SourceCoordinate(row - g.padY, source.height, g.scale),
                     SourceCoordinate(col - g.padX, source.width, g.scale))
  }

  /** Around the window the picture is RGB (114, 114, 114). */
  lemma OutsideIsGrey(nv12: Chunk, source: Size, g: LetterboxInfo, row: int, col: int)
    requires g.scale > 0.0 && Reads(nv12, source, g)
    requires row < g.padY || row >= g.padY + g.resizedHeight || col < g.padX || col >= g.padX + g.resizedWidth
    ensures Boxed(nv12, source, g, row, col) == Rgb(114, 114, 114)
  {
  }

  /** The picture when the pixels before (row, col) of the window, row by row, are done. */
  function Partial(nv12: Chunk, source: Size, g: LetterboxInfo, row: int, col: int): (int, int) -> Rgb
    requires g.scale > 0.0 && Reads(nv12, source, g)
  {
    (r, c) => if r < row || (r == row && c < col) then Boxed(nv12, source, g, r, c) else Rgb(GREY, GREY, GREY)
  }

  function Picture(nv12: Chunk, source: Size, g: LetterboxInfo): (int, int) -> Rgb
    requires g.scale > 0.0 && Reads(nv12, source, g)
  {
    (row, col) => Boxed(nv12, source, g, row, col)
  }

  /** One pixel of the window. */
  method FillPixel(nv12: array<Byte>, source: Size, target: Size, g: LetterboxInfo, y: nat, x: nat, rgb: array<Byte>)
    requires rgb != nv12 && Fitting(source, target, g) && Reads(nv12[..], source, g)
    requires y < g.resizedHeight && x < g.resizedWidth
    requires Pictures(rgb[..], target, Partial(nv12[..], source, g, g.padY + y, g.padX + x))
    modifies rgb
    ensures Pictures(rgb[..], target, Partial(nv12[..], source, g, g.padY + y, g.padX + x + 1))
  {
    ghost var frame := nv12[..];
    var srcY := SourceCoordinate(y, source.height, g.scale);
    var srcX := SourceCoordinate(x, source.width, g.scale);
    assert Readable(frame, source, srcY, srcX);
    var uv := ChromaAt(source, srcY, srcX);
    var value := ToRgb(nv12[Cell(source, srcY, srcX)], nv12[uv], nv12[uv + 1]);
    assert value == Boxed(frame, source, g, g.padY + y, g.padX + x);
    ghost var pixel := Partial(frame, source, g, g.padY + y, g.padX + x);
    SetPixel(rgb, target, g.padY + y, g.padX + x, value, pixel);
    PicturesSame(rgb[..], target, With(pixel, g.padY + y, g.padX + x, value),
                 Partial(frame, source, g, g.padY + y, g.padX + x + 1));
  }

  method FillRow(nv12: array<Byte>, source: Size, target: Size, g: LetterboxInfo, y: nat, rgb: array<Byte>)
    requires rgb != nv12 && Fitting(source, target, g) && Reads(nv12[..], source, g) && y < g.resizedHeight
    requires Pictures(rgb[..], target, Partial(nv12[..], source, g, g.padY + y, 0))
    modifies rgb
    ensures Pictures(rgb[..], target, Partial(nv12[..], source, g, g.padY + y + 1, 0))
  {
    ghost var frame, row := nv12[..], g.padY + y;
    PicturesSame(rgb[..], target, Partial(frame, source, g, row, 0), Partial(frame, source, g, row, g.padX));
    var x := 0;
    while x < g.resizedWidth
      invariant 0 <= x <= g.resizedWidth
      invariant Pictures(rgb[..], target, Partial(frame, source, g, row, g.padX + x))
    {
      FillPixel(nv12, source, target, g, y, x, rgb);
      x := x + 1;
    }
    PicturesSame(rgb[..], target, Partial(frame, source, g, row, g.padX + x), Partial(frame, source, g, row + 1, 0));
  }

  method FillLetterboxedRgb(nv12: array<Byte>, source: Size, target: Size)
      returns (rgb: array<Byte>, info: LetterboxInfo)
    requires source.width > 0 && source.height > 0 && target.width > 0 && target.height > 0
    requires Geometry(source, target).scale > 0.0 && Reads(nv12[..], source, Geometry(source, target))
    ensures fresh(rgb) && info == Geometry(source, target) && info.scale > 0.0
    ensures Pictures(rgb[..], target, Picture(nv12[..], source, info))
  {
    WindowFits(source, target);
    info := Geometry(source, target);
    rgb := new Byte[3 * (target.height * target.width)](_ => GREY);
    ghost var frame := nv12[..];
    assert Pictures(rgb[..], target, Ground());
    PicturesSame(rgb[..], target, Ground(), Partial(frame, source, info, info.padY, 0));
    FillWindow(nv12, source, target, info, rgb);
  }

  method FillWindow(nv12: array<Byte>, source: Size, target: Size, g: LetterboxInfo, rgb: array<Byte>)
    requires rgb != nv12 && Fitting(source, target, g) && Reads(nv12[..], source, g)
    requires Pictures(rgb[..], target, Partial(nv12[..], source, g, g.padY, 0))
    modifies rgb
    ensures Pictures(rgb[..], target, Picture(nv12[..], source, g))
  {
    ghost var frame := nv12[..];
    var y := 0;
    while y < g.resizedHeight
      invariant 0 <= y <= g.resizedHeight
      invariant Pictures(rgb[..], target, Partial(frame, source, g, g.padY + y, 0))
    {
      FillRow(nv12, source, target, g, y, rgb);
      y := y + 1;
    }
    PicturesSame(rgb[..], target, Partial(frame, source, g, g.padY + y, 0), Picture(frame, source, g));
  }

  lemma UnitScale(n: nat)
    requires n > 0
    ensures n as real / n as real == 1.0 && Resized(n, 1.0) == n
    ensures forall x: nat :: x < n ==> SourceCoordinate(x, n, 1.0) == x
  {
  }

  lemma SameSizeGeometry(source: Size)
    requires source.width > 0 && source.height > 0
    ensures Geometry(source, source) == LetterboxInfo(1.0, 0, 0, source.width, source.height)
  {
    UnitScale(source.width);
    UnitScale(source.height);
  }

  /** A target of the source's own size shows every pixel in its place. */
  lemma SameSizeIsIdentity(source: Size, nv12: Chunk, row: nat, col: nat)
    requires source.width > 0 && source.height > 0 && Inside(source, row, col)
    requires Reads(nv12, source, LetterboxInfo(1.0, 0, 0, source.width, source.height))
    ensures Geometry(source, source) == LetterboxInfo(1.0, 0, 0, source.width, source.height)
    ensures Readable(nv12, source, row, col)
    ensures Boxed(nv12, source, Geometry(source, source), row, col) == SourcePixel(nv12, source, row, col)
  {
    SameSizeGeometry(source);
    SameSizeReads(source, nv12, row, col);
  }

  lemma SameSizeReads(source: Size, nv12: Chunk, row: nat, col: nat)
    requires source.width > 0 && source.height > 0 && Inside(source, row, col)
    requires Reads(nv12, source, LetterboxInfo(1.0, 0, 0, source.width, source.height))
    ensures SourceCoordinate(row, source.height, 1.0) == row && SourceCoordinate(col, source.width, 1.0) == col
    ensures Readable(nv12, source, row, col)
  {
    UnitScale(source.width);
    UnitScale(source.height);
    assert Readable(nv12, source, SourceCoordinate(row, source.height, 1.0), SourceCoordinate(col, source.width, 1.0));
  }

  // ----- which frames can be read

  lemma ChromaInside(source: Size, row: nat, col: nat)
    requires Inside(source, row, col) && source.width % 2 == 0 && source.height % 2 == 0
    ensures ChromaAt(source, row, col) + 1 < FrameSize(source)
  {
    CellInside(row / 2, col - col % 2 + 1, source.width, source.height / 2);
    EvenFrameSize(source);
  }

  lemma EvenFrameSize(source: Size)
    requires source.height % 2 == 0
    ensures FrameSize(source) == source.height * source.width + source.height / 2 * source.width
  {
    var half := source.height / 2;
    assert source.width * source.height == 2 * (half * source.width) == source.height * source.width by {
      assert source.height == 2 * half;
    }
  }

  /** The last pixel of a frame with an odd side lies outside the camera's byte count. */
  lemma OddSideOutside(source: Size)
    requires source.width > 0 && source.height > 0 && (source.width % 2 == 1 || source.height % 2 == 1)
    ensures ChromaAt(source, source.height - 1, source.width - 1) + 1 >= FrameSize(source)
  {
    var half := (source.height - 1) / 2;
    if source.height % 2 == 0 {
      EvenFrameSize(source);
      NextRow(half, source.width);
    } else {
      OddFrameSize(source, half);
    }
  }

  lemma OddFrameSize(source: Size, half: nat)
    requires source.height == 2 * half + 1
    ensures FrameSize(source) == source.height * source.width + half * source.width + source.width / 2
  {
    assert source.width * source.height == 2 * (half * source.width) + source.width == source.height * source.width;
  }

  /** With the camera's byte count, no read leaves the frame whatever the target's size, if and
      only if both sides of the frame are even. */
  lemma ReadableFrames(source: Size, nv12: Chunk)
    requires source.width > 0 && source.height > 0 && |nv12| == FrameSize(source)
    ensures (forall target: Size :: target.width > 0 && target.height > 0 ==>
              Geometry(source, target).scale > 0.0 && Reads(nv12, source, Geometry(source, target)))
       <==> source.width % 2 == 0 && source.height % 2 == 0
  {
    if source.width % 2 == 0 && source.height % 2 == 0 {
      forall target: Size | target.width > 0 && target.height > 0
        ensures Geometry(source, target).scale > 0.0 && Reads(nv12, source, Geometry(source, target))
      {
        EvenFrameReads(source, nv12, target);
      }
    } else {
      SameSizeGeometry(source);
      if Reads(nv12, source, Geometry(source, source)) {
        SameSizeReads(source, nv12, source.height - 1, source.width - 1);
        OddSideOutside(source);
        assert false;
      }
    }
  }

  lemma EvenFrameReads(source: Size, nv12: Chunk, target: Size)
    requires source.width > 0 && source.height > 0 && target.width > 0 && target.height > 0
    requires source.width % 2 == 0 && source.height % 2 == 0 && |nv12| >= FrameSize(source)
    ensures Geometry(source, target).scale > 0.0 && Reads(nv12, source, Geometry(source, target))
  {
    WindowFits(source, target);
    var g := Geometry(source, target);
    forall y, x | 0 <= y < g.resizedHeight && 0 <= x < g.resizedWidth
      ensures Readable(nv12, source, SourceCoordinate(y, source.height, g.scale),
                       SourceCoordinate(x, source.width, g.scale))
    {
      ChromaInside(source, SourceCoordinate(y, source.height, g.scale), SourceCoordinate(x, source.width, g.scale));
    }
  }
}
