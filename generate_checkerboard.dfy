/**
 * The printable calibration checkerboard (generate_checkerboard.py): a
 * grayscale raster of squares painted in place, the label band added above
 * it, and the physical size reported to the user.
 *
 * The square side in pixels, `int(square_size_mm * dpi / 25.4)`, is taken as
 * an input; text rendering is a foreign call and only the label lines and
 * their positions are modelled.
 */
module GenerateCheckerboard {
  import opened Common
  import opened Text

  const BLACK := 0
  const WHITE := 255

  /** Height of the white band added above the board for the labels. */
  const LABEL_BORDER := 200

  /** Squares along one side: the inner corners plus one, plus the border squares
      on both ends. */
  function TotalSquares(corners: int, border: int): int
  {
    corners + 1 + 2 * border
  }

  /** The colour of square (i, j): black exactly when i + j is even. */
  function SquareColor(i: int, j: int): (c: int)
    ensures c == BLACK || c == WHITE
    ensures c == BLACK <==> (i + j) % 2 == 0
  {
    if (i + j) % 2 == 0 then BLACK else WHITE
  }

  /** The colour of pixel (y, x) for squares `sq` pixels wide. */
  function PixelColor(y: nat, x: nat, sq: nat): int
    requires 0 < sq
  {
    SquareColor(y / sq, x / sq)
  }

  /** The top-left square is black and neighbouring squares always differ. */
  lemma SquareColors(i: int, j: int)
    ensures SquareColor(0, 0) == BLACK
    ensures SquareColor(i, j) != SquareColor(i + 1, j)
    ensures SquareColor(i, j) != SquareColor(i, j + 1)
  {
    ParityFlip(i + j);
  }

  lemma ParityFlip(n: int)
    ensures (n % 2 == 0) != ((n + 1) % 2 == 0)
  {
    var q := n / 2;
    assert n == 2 * q + n % 2;
    if n % 2 == 0 {
      assert n + 1 == 2 * q + 1;
    } else {
      assert n + 1 == 2 * (q + 1);
    }
  }

  /** Every pixel of the square with corner (i·sq, j·sq) has that square's colour. */
  lemma PixelInSquare(y: nat, x: nat, sq: nat, i: nat, j: nat)
    requires 0 < sq
    requires i * sq <= y < (i + 1) * sq && j * sq <= x < (j + 1) * sq
    ensures PixelColor(y, x, sq) == SquareColor(i, j)
  {
    DivBlock(y, i, sq);
    DivBlock(x, j, sq);
  }

  /** The colour of pixel (y, x) once every square before (i, j) in row-major
      order has been visited, the rest still white. */
  function Painted(y: nat, x: nat, sq: nat, i: int, j: int): int
  {
    if sq == 0 then WHITE
    else if y / sq < i || (y / sq == i && x / sq < j) then PixelColor(y, x, sq)
    else WHITE
  }

  /** generate_checkerboard: np.ones raises ValueError (None here) when a dimension
      of the image would be negative; otherwise a white image of the board's size in
      which every square with even i + j is painted black, so pixel (y, x) is black
      exactly when y div sq + x div sq is even. */
  method Generate(width: int, height: int, sq: nat, border: int) returns (img: Option<array2<int>>)
    ensures img.None? <==> 0 < sq && (TotalSquares(width, border) < 0 || TotalSquares(height, border) < 0)
    ensures img.Some? ==> fresh(img.value)
    ensures img.Some? ==> img.value.Length0 == TotalSquares(height, border) * sq
    ensures img.Some? ==> img.value.Length1 == TotalSquares(width, border) * sq
    ensures img.Some? && 0 < sq ==> forall y, x :: 0 <= y < img.value.Length0 && 0 <= x < img.value.Length1 ==>
      img.value[y, x] == PixelColor(y, x, sq)
  {
    var totalWidth := TotalSquares(width, border);
    var totalHeight := TotalSquares(height, border);
    if 0 < sq && (totalWidth < 0 || totalHeight < 0) {
      return None;
    }
    // With sq == 0 both dimensions are 0 and no pixel is painted whatever the counts.
    var rows: nat, cols: nat := if sq == 0 then 0 else totalHeight, if sq == 0 then 0 else totalWidth;
    var board := new int[rows * sq, cols * sq]((y, x) => WHITE);
    var i := 0;
    while i < rows
      invariant 0 <= i <= rows
      invariant forall y, x :: 0 <= y < board.Length0 && 0 <= x < board.Length1 ==>
        board[y, x] == Painted(y, x, sq, i, 0)
    {
      MulMonotone(i + 1, rows, sq);
      PaintRow(board, sq, i, cols);
      i := i + 1;
    }
    if 0 < sq {
      forall y, x | 0 <= y < board.Length0 && 0 <= x < board.Length1
        ensures board[y, x] == PixelColor(y, x, sq)
      {
        QuotientBelow(y, rows, sq);
      }
    }
    img := Some(board);
  }

  /** One pass of the inner `for j` loop: the black squares of row i are painted. */
  method PaintRow(img: array2<int>, sq: nat, i: nat, totalWidth: nat)
    requires (i + 1) * sq <= img.Length0 && img.Length1 == totalWidth * sq
    requires forall y, x :: 0 <= y < img.Length0 && 0 <= x < img.Length1 ==>
      img[y, x] == Painted(y, x, sq, i, 0)
    modifies img
    ensures forall y, x :: 0 <= y < img.Length0 && 0 <= x < img.Length1 ==>
      img[y, x] == Painted(y, x, sq, i + 1, 0)
  {
    var j := 0;
    while j < totalWidth
      invariant 0 <= j <= totalWidth
      invariant forall y, x :: 0 <= y < img.Length0 && 0 <= x < img.Length1 ==>
        img[y, x] == Painted(y, x, sq, i, j)
    {
      if (i + j) % 2 == 0 && 0 < sq {
        MulMonotone(j + 1, totalWidth, sq);
        PaintSquare(img, sq, i, j);
      }
      forall y, x | 0 <= y < img.Length0 && 0 <= x < img.Length1
        ensures img[y, x] == Painted(y, x, sq, i, j + 1)
      {
        PaintedNext(y, x, sq, i, j);
      }
      j := j + 1;
    }
    forall y, x | 0 <= y < img.Length0 && 0 <= x < img.Length1
      ensures Painted(y, x, sq, i, totalWidth) == Painted(y, x, sq, i + 1, 0)
    {
      if 0 < sq {
        QuotientBelow(x, totalWidth, sq);
      }
    }
  }

  /** Visiting square (i, j) gives its pixels the square's colour and leaves the
      others as they were. */
  lemma PaintedNext(y: nat, x: nat, sq: nat, i: int, j: int)
    ensures Painted(y, x, sq, i, j + 1)
      == if 0 < sq && y / sq == i && x / sq == j then SquareColor(i, j) else Painted(y, x, sq, i, j)
  {
  }

  /** `checkerboard[y1:y2, x1:x2] = 0` for square (i, j). */
  method PaintSquare(img: array2<int>, sq: nat, i: nat, j: nat)
    requires 0 < sq
    requires (i + 1) * sq <= img.Length0 && (j + 1) * sq <= img.Length1
    modifies img
    ensures forall y, x :: 0 <= y < img.Length0 && 0 <= x < img.Length1 ==>
      img[y, x] == if y / sq == i && x / sq == j then BLACK else old(img[y, x])
  {
    var y1, y2 := i * sq, (i + 1) * sq;
    var x1, x2 := j * sq, (j + 1) * sq;
    var y := y1;
    while y < y2
      invariant y1 <= y <= y2
      invariant forall r, c :: 0 <= r < img.Length0 && 0 <= c < img.Length1 ==>
        img[r, c] == if y1 <= r < y && x1 <= c < x2 then BLACK else old(img[r, c])
    {
      var x := x1;
      while x < x2
        invariant x1 <= x <= x2
        invariant forall r, c :: 0 <= r < img.Length0 && 0 <= c < img.Length1 ==>
          img[r, c] == if (y1 <= r < y && x1 <= c < x2) || (r == y && x1 <= c < x) then BLACK else old(img[r, c])
      {
        img[y, x] := BLACK;
        x := x + 1;
      }
      y := y + 1;
    }
    forall r, c | 0 <= r < img.Length0 && 0 <= c < img.Length1
      ensures img[r, c] == if r / sq == i && c / sq == j then BLACK else old(img[r, c])
    {
      assert img[r, c] == if y1 <= r < y2 && x1 <= c < x2 then BLACK else old(img[r, c]);
      DivBlock(r, i, sq);
      DivBlock(c, j, sq);
    }
  }

  /** add_labels: the gray image becomes three equal colour channels below a white
      band LABEL_BORDER rows high; the width is unchanged. */
  method AddLabels(image: array2<int>) returns (bordered: array3<int>)
    ensures fresh(bordered)
    ensures bordered.Length0 == image.Length0 + LABEL_BORDER
    ensures bordered.Length1 == image.Length1 && bordered.Length2 == 3
    ensures forall y, x, c :: 0 <= y < LABEL_BORDER && 0 <= x < bordered.Length1 && 0 <= c < 3 ==>
      bordered[y, x, c] == WHITE
    ensures forall y, x, c :: LABEL_BORDER <= y < bordered.Length0 && 0 <= x < bordered.Length1 && 0 <= c < 3 ==>
      bordered[y, x, c] == image[y - LABEL_BORDER, x]
  {
    bordered := new int[image.Length0 + LABEL_BORDER, image.Length1, 3]((y, x, c) => WHITE);
    var y := 0;
    while y < image.Length0
      invariant 0 <= y <= image.Length0
      invariant forall r, s, c :: 0 <= r < bordered.Length0 && 0 <= s < bordered.Length1 && 0 <= c < 3 ==>
        bordered[r, s, c] == if LABEL_BORDER <= r < LABEL_BORDER + y then image[r - LABEL_BORDER, s] else WHITE
    {
      var x := 0;
      while x < image.Length1
        invariant 0 <= x <= image.Length1
        invariant forall r, s, c :: 0 <= r < bordered.Length0 && 0 <= s < bordered.Length1 && 0 <= c < 3 ==>
          bordered[r, s, c] ==
            if LABEL_BORDER <= r < LABEL_BORDER + y || (r == LABEL_BORDER + y && s < x)
            then image[r - LABEL_BORDER, s] else WHITE
      {
        var v := image[y, x];
        bordered[LABEL_BORDER + y, x, 0] := v;
        bordered[LABEL_BORDER + y, x, 1] := v;
        bordered[LABEL_BORDER + y, x, 2] := v;
        x := x + 1;
      }
      y := y + 1;
    }
  }

  /** One line of label text: its baseline position, font scale and stroke. */
  datatype Label = Label(text: string, x: int, y: int, scale: real, thickness: int)

  /** The five label lines, the first one larger, 35 pixels apart from y = 40. */
  function Labels(width: int, height: int, squareSizeMm: int, dpi: int): (r: seq<Label>)
    ensures |r| == 5
    ensures forall k :: 0 <= k < 5 ==> r[k].x == 20 && r[k].y == 40 + 35 * k
  {
    var texts := [
      "Camera Calibration Checkerboard",
      "Inner Corners: " + Decimal(width) + " x " + Decimal(height),
      "Square Size: " + Decimal(squareSizeMm) + "mm",
      "Print at: " + Decimal(dpi) + " DPI (100% scale)",
      "DO NOT RESIZE - Print at actual size"];
    seq(5, k requires 0 <= k < 5 =>
      Label(texts[k], 20, 40 + 35 * k, if k == 0 then 1.2 else 0.8, if k == 0 then 3 else 2))
  }

  /** Every label baseline lies inside the white band above the board. */
  lemma LabelsInBand(width: int, height: int, squareSizeMm: int, dpi: int)
    ensures forall l :: l in Labels(width, height, squareSizeMm, dpi) ==> 0 < l.y < LABEL_BORDER
  {
    var r := Labels(width, height, squareSizeMm, dpi);
    forall l | l in r ensures 0 < l.y < LABEL_BORDER {
      var k :| 0 <= k < 5 && r[k] == l;
    }
  }

  /** The printed size in millimetres: inner corners plus one squares per side. */
  function PhysicalSizeMm(width: int, height: int, squareSizeMm: int): (int, int)
  {
    ((width + 1) * squareSizeMm, (height + 1) * squareSizeMm)
  }
}
