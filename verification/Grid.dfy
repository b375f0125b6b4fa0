/** Row-major index arithmetic for pixel buffers. */
module Grid {

  lemma MulGrows(a: nat, b: nat, n: nat)
    requires a <= b
    ensures a * n <= b * n
  {
  }

  lemma NextRow(row: nat, n: nat)
    ensures (row + 1) * n == row * n + n
  {
  }

  /** An earlier row ends before a later one begins. */
  lemma RowsApart(a: nat, b: nat, n: nat)
    requires a < b
    ensures a * n + n <= b * n
  {
    NextRow(a, n);
    MulGrows(a + 1, b, n);
  }

  lemma CellInside(row: nat, col: nat, width: nat, height: nat)
    requires row < height && col < width
    ensures row * width + col < height * width
  {
    RowsApart(row, height, width);
  }

  /** Every index is a row and a column. */
  lemma CellOf(p: nat, width: nat) returns (row: nat, col: nat)
    requires 0 < width
    ensures row == p / width && col == p % width
    ensures p == row * width + col && col < width
  {
    row, col := p / width, p % width;
  }

  lemma RowBelow(p: nat, width: nat, height: nat)
    requires 0 < width && p < height * width
    ensures p / width < height
  {
    var row, col := CellOf(p, width);
    if row >= height {
      MulGrows(height, row, width);
    }
  }

  /** A row and column determine the index, and the index them. */
  lemma CellUnique(row: nat, col: nat, width: nat)
    requires col < width
    ensures (row * width + col) / width == row && (row * width + col) % width == col
  {
    var p := row * width + col;
    var r, c := CellOf(p, width);
    if r < row {
      RowsApart(r, row, width);
    } else if row < r {
      RowsApart(row, r, width);
    }
  }

  datatype Size = Size(width: nat, height: nat)

  predicate Inside(size: Size, row: int, col: int) {
    0 <= row < size.height && 0 <= col < size.width
  }

  /** Where a pixel is kept. */
  function Cell(size: Size, row: int, col: int): (p: nat)
    requires Inside(size, row, col)
    ensures p < size.height * size.width
  {
    CellInside(row, col, size.width, size.height);
    row * size.width + col
  }

  lemma CellsDiffer(size: Size, row: int, col: int, r: int, c: int)
    requires Inside(size, row, col) && Inside(size, r, c)
    ensures Cell(size, row, col) == Cell(size, r, c) <==> row == r && col == c
  {
    CellUnique(row, col, size.width);
    CellUnique(r, c, size.width);
  }
}
