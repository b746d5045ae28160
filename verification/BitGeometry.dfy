// The arithmetic of a bit-block transfer: which words of a row are read and written, under which
// masks, and how the source is skewed.
module BitGeometry {
  import opened BitWords

  // The clipped rectangle in source and destination, the words per row of both forms, and the
  // directions: `back` when each row is copied from right to left, `up` when the rows go from the
  // last to the first.  `exact` tells that no word is overwritten before it is read.
  datatype Geometry = Geometry(sx: int, sy: int, dx: int, dy: int, w: int, h: int, hasSource: bool, sourceRaster: int,
                               destRaster: int, back: bool, up: bool, exact: bool)

  // The rectangle lies in both forms; only a form copied onto itself is copied backwards.
  predicate Fits(g: Geometry) {
    0 <= g.dx && 0 < g.w && 0 <= g.dy && 0 < g.h && g.dx + g.w <= 16 * g.destRaster &&
    (g.hasSource ==> 0 <= g.sx && 0 <= g.sy && g.sx + g.w <= 16 * g.sourceRaster) &&
    (g.back || g.up ==> g.hasSource) && !(g.back && g.up)
  }

  function HDir(g: Geometry): int {
    if g.back then -1 else 1
  }

  function VDir(g: Geometry): int {
    if g.up then -1 else 1
  }

  function StartBits(g: Geometry): int {
    16 - g.dx % 16
  }

  function NWords(g: Geometry): int {
    if g.w < StartBits(g) then 1 else (g.w - StartBits(g) + 15) / 16 + 1
  }

  function Skew(g: Geometry): int {
    (g.sx - g.dx) % 16
  }

  function FirstCol(g: Geometry): int {
    g.dx / 16
  }

  function LastCol(g: Geometry): int {
    (g.dx + g.w - 1) / 16
  }

  // The source column that the copying of a row starts from.
  function StartX(g: Geometry): int {
    if g.back then g.sx + g.w - 1 else g.sx
  }

  function Preload(g: Geometry): bool {
    g.back != (g.hasSource && Skew(g) != 0 && Skew(g) <= StartX(g) % 16)
  }

  // The source word fetched for the j-th word of a row, and the one fetched before it.
  function ThisCol(g: Geometry, j: int): int {
    StartX(g) / 16 + HDir(g) * ((if Preload(g) then 1 else 0) + j)
  }

  function PrevCol(g: Geometry, j: int): int {
    ThisCol(g, j) - HDir(g)
  }

  // The j-th destination word of a row.
  function DestCol(g: Geometry, j: int): int {
    if g.back then LastCol(g) - j else FirstCol(g) + j
  }

  function DestRow(g: Geometry, i: int): int {
    if g.up then g.dy + g.h - 1 - i else g.dy + i
  }

  function SourceRow(g: Geometry, i: int): int {
    if g.up then g.sy + g.h - 1 - i else g.sy + i
  }

  // Some pixel of the rectangle is in source column c.
  predicate Needed(g: Geometry, c: int) {
    g.sx / 16 <= c <= (g.sx + g.w - 1) / 16
  }

  predicate InX(g: Geometry, x: int) {
    g.dx <= x < g.dx + g.w
  }

  lemma {:induction false} Columns(g: Geometry)
    requires Fits(g)
    ensures 1 <= NWords(g) == LastCol(g) - FirstCol(g) + 1 && 0 <= FirstCol(g) <= LastCol(g) < g.destRaster
  {
  }

  lemma {:induction false} ColumnsInRange(g: Geometry, j: int)
    requires Fits(g) && 0 <= j < NWords(g)
    ensures FirstCol(g) <= DestCol(g, j) <= LastCol(g)
    ensures NWords(g) == 1 ==> FirstCol(g) == LastCol(g)
  {
    Columns(g);
  }

  // A fetch for a word that is needed passes the guard on the source's raster.
  lemma {:induction false} FetchInRaster(g: Geometry, j: int)
    requires Fits(g) && g.hasSource && 0 <= j < NWords(g) && Needed(g, ThisCol(g, j))
    ensures 0 <= ThisCol(g, j) < g.sourceRaster && j + 1 <= g.sourceRaster
  {
  }

  // What is loaded before the row is the word before the first, or is not needed.
  lemma {:induction false} FirstPrev(g: Geometry)
    requires Fits(g) && g.hasSource
    ensures Preload(g) ==> PrevCol(g, 0) == StartX(g) / 16 && 0 <= PrevCol(g, 0) < g.sourceRaster
    ensures !Preload(g) ==> !Needed(g, PrevCol(g, 0))
  {
  }

  lemma {:induction false} NextPrev(g: Geometry, j: int)
    ensures PrevCol(g, j + 1) == ThisCol(g, j) && ThisCol(g, j + 1) == ThisCol(g, j) + HDir(g)
    ensures DestCol(g, j + 1) == DestCol(g, j) + HDir(g)
  {
  }

  // The source column of the pixels of destination word e that come from before the word boundary.
  function Aligned(g: Geometry, e: int): int {
    e + (g.sx - g.dx - Skew(g)) / 16
  }

  // Pixel k of destination word e is the source pixel that the skew says.
  lemma {:induction false} SourcePixel(g: Geometry, e: int, k: int)
    requires Position(k)
    ensures var x, t := 16 * e + k + g.sx - g.dx, k + Skew(g);
      x / 16 == (if t < 16 then Aligned(g, e) else Aligned(g, e) + 1) && x % 16 == (if t < 16 then t else t - 16)
  {
    assert 16 * ((g.sx - g.dx - Skew(g)) / 16) == g.sx - g.dx - Skew(g);
  }

  lemma {:induction false} NeededPixel(g: Geometry, e: int, k: int)
    requires InX(g, 16 * e + k)
    ensures Needed(g, (16 * e + k + g.sx - g.dx) / 16)
  {
  }

  // The two words in the shifter are those that the alignment needs.
  lemma {:induction false} Alignment(g: Geometry, j: int)
    requires Fits(g) && g.hasSource && 0 <= j < NWords(g)
    ensures if g.back
      then ThisCol(g, j) == Aligned(g, DestCol(g, j)) - (if Skew(g) == 0 then 1 else 0)
      else ThisCol(g, j) == Aligned(g, DestCol(g, j)) + (if Skew(g) == 0 then 0 else 1)
  {
    var s := Skew(g);
    if g.back {
      var xs, xd := g.sx + g.w - 1, g.dx + g.w - 1;
      StartAlignment(xs, xd, s);
      assert xs - xd == g.sx - g.dx;
    } else {
      StartAlignment(g.sx, g.dx, s);
    }
  }

  lemma {:induction false} StartAlignment(xs: int, xd: int, s: int)
    requires s == (xs - xd) % 16
    ensures xd / 16 + (xs - xd - s) / 16 == xs / 16 - (if s > xs % 16 then 1 else 0)
  {
    assert 16 * ((xs - xd - s) / 16) == xs - xd - s;
  }
}
