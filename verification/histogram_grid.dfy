/** The calibration grid of the hand-histogram tool
    (Sign-Language/Code/set_hand_histogram.py, `build_squares`): 8 rows of 12
    sample squares of 20x20 pixels, 28 pixels apart, are stitched row-major
    into one 160x240 crop and outlined in green in the camera frame, in place.
    Images are `array2`s indexed [row, column]. */
module HistogramGrid {

  newtype Byte = b: int | 0 <= b < 256

  /** A BGR pixel, as OpenCV stores it. */
  datatype Pixel = Pixel(b: Byte, g: Byte, r: Byte)

  /** The outline colour `(0, 255, 0)`. */
  const Green := Pixel(0, 255, 0)

  const Rows: nat := 8
  const Columns: nat := 12
  /** Side of a sample square (`w`, `h`) and gap between squares (`d`). */
  const Side: nat := 20
  const Gap: nat := 8
  const Left: nat := 200
  const Top: nat := 80

  /** Column of the left edge of squares in grid column `j`. */
  function SquareX(j: nat): nat { 200 + 28 * j }

  /** Row of the top edge of squares in grid row `i`. */
  function SquareY(i: nat): nat { 80 + 28 * i }

  /** Every square and its outline fit in the 640x480 frame the caller resizes
      to: the rightmost outline column is 528 and the lowest outline row 296. */
  lemma SquaresInFrame(i: nat, j: nat)
    requires i < Rows && j < Columns
    ensures SquareX(j) + Side <= SquareX(Columns - 1) + Side == 528 < 640
    ensures SquareY(i) + Side <= SquareY(Rows - 1) + Side == 296 < 480
  {
  }

  /** `cv2.rectangle(img, (x, y), (x + 20, y + 20), ..., 1)` colours the
      one-pixel border of the 21x21 box with top-left corner (x, y). */
  predicate OnBox(r: int, c: int, x: int, y: int) {
    || ((r == y || r == y + Side) && x <= c <= x + Side)
    || ((c == x || c == x + Side) && y <= r <= y + Side)
  }

  predicate OnOutline(r: int, c: int, i: nat, j: nat) {
    OnBox(r, c, SquareX(j), SquareY(i))
  }

  /** Pixel (r, c) lies on the outline of one of the first `n` squares in
      row-major order. Only the square whose cell holds (r, c) can outline it. */
  predicate Outlined(r: int, c: int, n: int) {
    && r >= Top && c >= Left
    && var i, j := (r - Top) / (Side + Gap), (c - Left) / (Side + Gap);
       i < Rows && j < Columns && Columns * i + j < n && OnOutline(r, c, i, j)
  }

  lemma CellOf(i: nat, t: int)
    requires 0 <= t < Side + Gap
    ensures ((Side + Gap) * i + t) / (Side + Gap) == i
    ensures ((Side + Gap) * i + t) % (Side + Gap) == t
  {
  }

  /** The outlines of different squares never meet. */
  lemma OutlineInOwnCell(r: int, c: int, i: nat, j: nat)
    requires OnOutline(r, c, i, j)
    ensures r >= Top && c >= Left
    ensures (r - Top) / (Side + Gap) == i && (c - Left) / (Side + Gap) == j
  {
    CellOf(i, r - SquareY(i));
    CellOf(j, c - SquareX(j));
  }

  /** `Outlined` says what it should: some square among the first `n` outlines the pixel. */
  lemma OutlinedMeansSomeSquare(r: int, c: int, n: int)
    ensures Outlined(r, c, n) <==>
            exists i: nat, j: nat :: i < Rows && j < Columns && Columns * i + j < n && OnOutline(r, c, i, j)
  {
    if exists i: nat, j: nat :: i < Rows && j < Columns && Columns * i + j < n && OnOutline(r, c, i, j) {
      var i: nat, j: nat :| i < Rows && j < Columns && Columns * i + j < n && OnOutline(r, c, i, j);
      OutlineInOwnCell(r, c, i, j);
    }
  }

  /** Drawing square `n = 12i + j` adds exactly its outline. */
  lemma OutlinedStep(r: int, c: int, i: nat, j: nat)
    requires i < Rows && j < Columns
    ensures Outlined(r, c, Columns * i + j + 1) <==> Outlined(r, c, Columns * i + j) || OnOutline(r, c, i, j)
  {
    if OnOutline(r, c, i, j) {
      OutlineInOwnCell(r, c, i, j);
    } else if r >= Top && c >= Left {
      var ci, cj := (r - Top) / (Side + Gap), (c - Left) / (Side + Gap);
      if ci < Rows && cj < Columns && Columns * ci + cj == Columns * i + j {
        RowMajorUnique(ci, cj, i, j);
      }
    }
  }

  /** Row-major positions name their squares uniquely. */
  lemma RowMajorUnique(i': nat, j': nat, i: nat, j: nat)
    requires j' < Columns && j < Columns && Columns * i' + j' == Columns * i + j
    ensures i' == i && j' == j
  {
  }

  /** What the crop holds at (r, c): the pixel of square (r/20, c/20) at offset
      (r%20, c%20) in the original frame, except that squares of the first grid
      column show their outline's top row and left column. */
  function CropPixel(orig: seq<seq<Pixel>>, r: nat, c: nat): Pixel
    requires r < Side * Rows && c < Side * Columns
    requires |orig| > SquareY(Rows - 1) + Side
    requires forall k :: 0 <= k < |orig| ==> |orig[k]| > SquareX(Columns - 1) + Side
  {
    var i, j, a, b := r / Side, c / Side, r % Side, c % Side;
    assert i < Rows && j < Columns && a < Side && b < Side;
    assert SquareX(j) <= SquareX(Columns - 1);
    if j == 0 && (a == 0 || b == 0) then Green else orig[SquareY(i) + a][SquareX(j) + b]
  }

  /** The row-major position of the tile that holds crop pixel (r, c). */
  function TileIndex(r: nat, c: nat): nat { Columns * (r / Side) + c / Side }

  function Snapshot(img: array2<Pixel>): (s: seq<seq<Pixel>>)
    reads img
    ensures |s| == img.Length0
    ensures forall r :: 0 <= r < img.Length0 ==> |s[r]| == img.Length1
    ensures forall r, c :: 0 <= r < img.Length0 && 0 <= c < img.Length1 ==> s[r][c] == img[r, c]
  {
    seq(img.Length0, r requires 0 <= r < img.Length0 reads img =>
      seq(img.Length1, c requires 0 <= c < img.Length1 reads img => img[r, c]))
  }

  predicate FrameFits(img: array2<Pixel>) {
    img.Length0 > SquareY(Rows - 1) + Side && img.Length1 > SquareX(Columns - 1) + Side
  }

  /** The frame holds the original with the first `n` outlines drawn. */
  predicate OutlinedUpTo(img: array2<Pixel>, orig: seq<seq<Pixel>>, n: int)
    reads img
  {
    && |orig| == img.Length0
    && (forall r :: 0 <= r < |orig| ==> |orig[r]| == img.Length1)
    && forall r, c :: 0 <= r < img.Length0 && 0 <= c < img.Length1 ==>
         img[r, c] == if Outlined(r, c, n) then Green else orig[r][c]
  }

  /** The crop's first `n` tiles are in place. */
  predicate TiledUpTo(crop: array2<Pixel>, orig: seq<seq<Pixel>>, n: int)
    reads crop
    requires |orig| > SquareY(Rows - 1) + Side
    requires forall k :: 0 <= k < |orig| ==> |orig[k]| > SquareX(Columns - 1) + Side
  {
    && crop.Length0 == Side * Rows && crop.Length1 == Side * Columns
    && forall r, c :: 0 <= r < crop.Length0 && 0 <= c < crop.Length1 && TileIndex(r, c) < n ==>
         crop[r, c] == CropPixel(orig, r, c)
  }

  /** `cv2.rectangle` of one square, thickness 1. */
  method DrawOutline(img: array2<Pixel>, x: nat, y: nat)
    requires x + Side < img.Length1 && y + Side < img.Length0
    modifies img
    ensures forall r, c :: 0 <= r < img.Length0 && 0 <= c < img.Length1 ==>
              img[r, c] == if OnBox(r, c, x, y) then Green else old(img[r, c])
  {
    var k := 0;
    while k <= Side
      invariant 0 <= k <= Side + 1
      invariant forall r, c :: 0 <= r < img.Length0 && 0 <= c < img.Length1 ==>
                  img[r, c] == if || ((r == y || r == y + Side) && x <= c < x + k)
                                  || ((c == x || c == x + Side) && y <= r < y + k)
                               then Green else old(img[r, c])
    {
      img[y, x + k] := Green;
      img[y + Side, x + k] := Green;
      img[y + k, x] := Green;
      img[y + k, x + Side] := Green;
      k := k + 1;
    }
  }

  /** Copies the 20x20 block at (sr, sc) of `src` to (dr, dc) of `dst`. */
  method CopyTile(src: array2<Pixel>, dst: array2<Pixel>, sr: nat, sc: nat, dr: nat, dc: nat)
    requires src != dst
    requires sr + Side <= src.Length0 && sc + Side <= src.Length1
    requires dr + Side <= dst.Length0 && dc + Side <= dst.Length1
    modifies dst
    ensures forall r, c :: 0 <= r < dst.Length0 && 0 <= c < dst.Length1 ==>
              dst[r, c] == if dr <= r < dr + Side && dc <= c < dc + Side
                           then src[sr + (r - dr), sc + (c - dc)] else old(dst[r, c])
  {
    var a := 0;
    while a < Side
      invariant 0 <= a <= Side
      invariant forall r, c :: 0 <= r < dst.Length0 && 0 <= c < dst.Length1 ==>
                  dst[r, c] == if dr <= r < dr + a && dc <= c < dc + Side
                               then src[sr + (r - dr), sc + (c - dc)] else old(dst[r, c])
    {
      var b := 0;
      while b < Side
        invariant 0 <= b <= Side
        invariant forall r, c :: 0 <= r < dst.Length0 && 0 <= c < dst.Length1 ==>
                    dst[r, c] == if (dr <= r < dr + a && dc <= c < dc + Side) || (r == dr + a && dc <= c < dc + b)
                                 then src[sr + (r - dr), sc + (c - dc)] else old(dst[r, c])
      {
        dst[dr + a, dc + b] := src[sr + a, sc + b];
        b := b + 1;
      }
      a := a + 1;
    }
  }

  /** Crop pixel (r, c) of tile (i, j), read off the frame state the tile is
      copied from. */
  lemma TileCopied(img: array2<Pixel>, orig: seq<seq<Pixel>>, i: nat, j: nat, n: int, r: nat, c: nat)
    requires FrameFits(img) && i < Rows && j < Columns
    requires Side * i <= r < Side * i + Side && Side * j <= c < Side * j + Side
    requires n == Columns * i + j + (if j == 0 then 1 else 0)
    requires OutlinedUpTo(img, orig, n)
    ensures img[SquareY(i) + (r - Side * i), SquareX(j) + (c - Side * j)] == CropPixel(orig, r, c)
  {
    var a, b := r - Side * i, c - Side * j;
    CellOf(i, a);
    CellOf(j, b);
    assert r / Side == i && r % Side == a;
    assert c / Side == j && c % Side == b;
  }

  /** Outlines square (i, j), the `n = 12i + j`-th of the walk, whose corner
      is at (x, y). */
  method OutlineSquare(img: array2<Pixel>, ghost orig: seq<seq<Pixel>>, i: nat, j: nat, x: nat, y: nat)
    requires FrameFits(img) && i < Rows && j < Columns && x == SquareX(j) && y == SquareY(i)
    requires OutlinedUpTo(img, orig, Columns * i + j)
    modifies img
    ensures OutlinedUpTo(img, orig, Columns * i + j + 1)
  {
    DrawOutline(img, x, y);
    forall r, c | 0 <= r < img.Length0 && 0 <= c < img.Length1
      ensures img[r, c] == if Outlined(r, c, Columns * i + j + 1) then Green else orig[r][c]
    {
      OutlinedStep(r, c, i, j);
    }
  }

  /** Crop pixel (r, c) lies in tile (i, j) exactly when that tile is the
      `12i + j`-th. */
  lemma TileOfPixel(r: nat, c: nat, i: nat, j: nat)
    requires r < Side * Rows && c < Side * Columns && i < Rows && j < Columns
    ensures (Side * i <= r < Side * i + Side && Side * j <= c < Side * j + Side) <==> TileIndex(r, c) == Columns * i + j
  {
    var ti, tj := r / Side, c / Side;
    assert Side * ti <= r < Side * ti + Side && Side * tj <= c < Side * tj + Side;
    assert tj < Columns;
  }

  /** Copies the tile of square (i, j) into the crop, from a frame in which
      the first `n` squares are outlined. */
  method CopySquare(img: array2<Pixel>, crop: array2<Pixel>, ghost orig: seq<seq<Pixel>>, i: nat, j: nat,
                    x: nat, y: nat, ghost n: int)
    requires img != crop && FrameFits(img) && i < Rows && j < Columns && x == SquareX(j) && y == SquareY(i)
    requires n == Columns * i + j + (if j == 0 then 1 else 0)
    requires OutlinedUpTo(img, orig, n)
    requires TiledUpTo(crop, orig, Columns * i + j)
    modifies crop
    ensures TiledUpTo(crop, orig, Columns * i + j + 1)
  {
    CopyTile(img, crop, y, x, Side * i, Side * j);
    forall r, c | 0 <= r < crop.Length0 && 0 <= c < crop.Length1 && TileIndex(r, c) < Columns * i + j + 1
      ensures crop[r, c] == CropPixel(orig, r, c)
    {
      TileOfPixel(r, c, i, j);
      if Side * i <= r < Side * i + Side && Side * j <= c < Side * j + Side {
        TileCopied(img, orig, i, j, n, r, c);
      } else {
        assert TileIndex(r, c) < Columns * i + j;
        assert crop[r, c] == old(crop[r, c]);
      }
    }
  }

  /** One square of the walk: its tile and its outline. The first square of a
      row is a numpy view, so it is copied (by `np.hstack` at the next square)
      only after its outline is drawn; the others are copied before. The
      square's corner (x, y) is the walk's cursor. */
  method VisitSquare(img: array2<Pixel>, crop: array2<Pixel>, ghost orig: seq<seq<Pixel>>, i: nat, j: nat, x: nat, y: nat)
    requires img != crop && FrameFits(img) && i < Rows && j < Columns && x == SquareX(j) && y == SquareY(i)
    requires OutlinedUpTo(img, orig, Columns * i + j)
    requires TiledUpTo(crop, orig, Columns * i + j)
    modifies img, crop
    ensures OutlinedUpTo(img, orig, Columns * i + j + 1)
    ensures TiledUpTo(crop, orig, Columns * i + j + 1)
  {
    if j == 0 {
      OutlineSquare(img, orig, i, j, x, y);
      CopySquare(img, crop, orig, i, j, x, y, Columns * i + j + 1);
    } else {
      CopySquare(img, crop, orig, i, j, x, y, Columns * i + j);
      OutlineSquare(img, orig, i, j, x, y);
    }
  }

  /** `build_squares`: returns the 160x240 crop and outlines all 96 squares in `img`. */
  method BuildSquares(img: array2<Pixel>) returns (crop: array2<Pixel>)
    requires FrameFits(img)
    modifies img
    ensures fresh(crop) && crop.Length0 == Side * Rows && crop.Length1 == Side * Columns
    ensures forall r, c :: 0 <= r < img.Length0 && 0 <= c < img.Length1 ==>
              img[r, c] == if Outlined(r, c, Rows * Columns) then Green else old(img[r, c])
    ensures forall r, c :: 0 <= r < crop.Length0 && 0 <= c < crop.Length1 ==>
              crop[r, c] == CropPixel(old(Snapshot(img)), r, c)
  {
    ghost var orig := Snapshot(img);
    crop := new Pixel[Side * Rows, Side * Columns]((r, c) => Green);
    var x, y := Left, Top;
    var i := 0;
    while i < Rows
      invariant 0 <= i <= Rows && x == Left && y == SquareY(i)
      invariant OutlinedUpTo(img, orig, Columns * i)
      invariant TiledUpTo(crop, orig, Columns * i)
    {
      var j := 0;
      while j < Columns
        invariant 0 <= j <= Columns && x == SquareX(j) && y == SquareY(i)
        invariant OutlinedUpTo(img, orig, Columns * i + j)
        invariant TiledUpTo(crop, orig, Columns * i + j)
      {
        VisitSquare(img, crop, orig, i, j, x, y);
        x := x + Side + Gap;
        j := j + 1;
      }
      x := Left;
      y := y + Side + Gap;
      i := i + 1;
    }
    forall r, c | 0 <= r < crop.Length0 && 0 <= c < crop.Length1
      ensures TileIndex(r, c) < Rows * Columns
    {
    }
  }
}
