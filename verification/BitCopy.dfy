// What a bit-block transfer is to do to each pixel, and why the word-wise copying does it.
module BitCopy {
  import opened BitWords
  import opened BitGeometry

  // The masks of a row

  function EndBits(g: Geometry): int {
    15 - (g.dx + g.w - 1) % 16
  }

  function LeftMask(g: Geometry): Bits {
    if g.w < StartBits(g) then And(RightMask(StartBits(g)), Not(RightMask(EndBits(g)))) else RightMask(StartBits(g))
  }

  function RightEdgeMask(g: Geometry): Bits {
    if g.w < StartBits(g) then NoBits() else Not(RightMask(EndBits(g)))
  }

  // The masks are exchanged when the row is copied backwards.
  function FirstMask(g: Geometry): Bits {
    if g.back then RightEdgeMask(g) else LeftMask(g)
  }

  function LastMask(g: Geometry): Bits {
    if g.back then LeftMask(g) else RightEdgeMask(g)
  }

  function MaskAt(g: Geometry, j: int): Bits {
    if j == 0 then FirstMask(g) else if j == NWords(g) - 1 then LastMask(g) else AllOnes()
  }

  // The exchange of the masks does no harm: there are two words to a row, or one whole word.
  predicate Straight(g: Geometry) {
    g.back ==> NWords(g) > 1 || g.w == StartBits(g) == 16
  }

  // The pixels of a row that the masks let through: those of the rectangle, or, when the masks
  // of a single word have been exchanged, none of them or the whole word.
  predicate Written(g: Geometry, x: int) {
    if Straight(g) then InX(g, x) else g.w == StartBits(g) && x / 16 == FirstCol(g)
  }

  lemma {:induction false} MaskBits(g: Geometry, j: int, k: int)
    requires Fits(g) && 0 <= j < NWords(g) && Position(k)
    ensures Pixel(MaskAt(g, j), k) <==> Written(g, 16 * DestCol(g, j) + k)
  {
    Columns(g);
    ColumnsInRange(g, j);
    assert (16 * DestCol(g, j) + k) / 16 == DestCol(g, j);
  }

  // The shifter

  function SkewMask(g: Geometry): Bits {
    var m := if Skew(g) == 0 then NoBits() else RightMask(16 - Skew(g));
    if g.back then Not(m) else m
  }

  function Shifted(g: Geometry, prevWord: Bits, thisWord: Bits): Bits {
    Rotated(Or(And(prevWord, SkewMask(g)), And(thisWord, Not(SkewMask(g)))), Skew(g))
  }

  function WordAt(bits: seq<Bits>, i: int): Bits {
    if 0 <= i < |bits| then bits[i] else NoBits()
  }

  function Index(raster: int, c: int, y: int): int {
    y * raster + c
  }

  // Pixel (x, y) of a form.
  predicate PixelAt(bits: seq<Bits>, raster: int, x: int, y: int) {
    Pixel(WordAt(bits, Index(raster, x / 16, y)), x % 16)
  }

  // The word in the shifter is source column c, if that column matters.
  predicate Holds(g: Geometry, src: seq<Bits>, i: int, c: int, word: Bits) {
    g.exact && Needed(g, c) ==> word == WordAt(src, Index(g.sourceRaster, c, SourceRow(g, i)))
  }

  lemma {:induction false} ShiftedChoice(g: Geometry, prevWord: Bits, thisWord: Bits, k: int)
    requires Position(k)
    ensures var t := k + Skew(g);
      Pixel(Shifted(g, prevWord, thisWord), k) <==>
        if g.back then
          (if t < 16 && Skew(g) != 0 then Pixel(thisWord, t) else if t < 16 then Pixel(prevWord, t)
            else Pixel(prevWord, t - 16))
        else (if t < 16 && Skew(g) != 0 then Pixel(prevWord, t) else if t < 16 then Pixel(thisWord, t)
          else Pixel(thisWord, t - 16))
  {
    var word := Or(And(prevWord, SkewMask(g)), And(thisWord, Not(SkewMask(g))));
    var t := k + Skew(g);
    var from := if t < 16 then t else t - 16;
    RotatedBit(word, Skew(g), k);
    ChoiceBit(SkewMask(g), prevWord, thisWord, from);
  }

  // For every pixel of the rectangle the shifter holds the source pixel: a stale word never shows.
  lemma {:induction false} ShiftedPixel(g: Geometry, src: seq<Bits>, i: int, j: int, prevWord: Bits, thisWord: Bits,
                                        k: int)
    requires Fits(g) && g.exact && g.hasSource && 0 <= j < NWords(g) && Position(k) && InX(g, 16 * DestCol(g, j) + k)
    requires Holds(g, src, i, PrevCol(g, j), prevWord) && Holds(g, src, i, ThisCol(g, j), thisWord)
    ensures Pixel(Shifted(g, prevWord, thisWord), k) <==>
      PixelAt(src, g.sourceRaster, 16 * DestCol(g, j) + k + g.sx - g.dx, SourceRow(g, i))
  {
    var e := DestCol(g, j);
    SourcePixel(g, e, k);
    NeededPixel(g, e, k);
    Alignment(g, j);
    ShiftedChoice(g, prevWord, thisWord, k);
  }

  // Overlap

  // The directions that are chosen when a form is copied onto itself.
  predicate Directed(g: Geometry) {
    (g.back <==> g.dy == g.sy && g.dx > g.sx) && (g.up <==> g.dy > g.sy)
  }

  // What is read of a form copied onto itself is read in time.
  predicate InTime(g: Geometry) {
    Directed(g) || (!g.up && !g.back && g.dy - g.sy >= g.h)
  }

  function RowOrder(g: Geometry, y: int): int {
    if g.up then g.dy + g.h - 1 - y else y - g.dy
  }

  function ColOrder(g: Geometry, c: int): int {
    if g.back then LastCol(g) - c else c - FirstCol(g)
  }

  // Word (c, y) of the destination has been written when row i has been copied up to word j.
  predicate WordDone(g: Geometry, i: int, j: int, c: int, y: int) {
    FirstCol(g) <= c <= LastCol(g) && g.dy <= y < g.dy + g.h &&
    (RowOrder(g, y) < i || (RowOrder(g, y) == i && ColOrder(g, c) < j))
  }

  // No source word is fetched after it has been overwritten.
  lemma {:induction false} NotYetWritten(g: Geometry, i: int, j: int)
    requires Fits(g) && g.hasSource && InTime(g) && 0 <= i < g.h && 0 <= j < NWords(g)
    ensures !WordDone(g, i, j, ThisCol(g, j), SourceRow(g, i))
    ensures !WordDone(g, i, 0, PrevCol(g, 0), SourceRow(g, i))
  {
    Alignment(g, j);
    if g.dy == g.sy {
      if g.back {
        BackwardReads(g, j);
      } else {
        ForwardReads(g, j);
      }
    }
  }

  lemma {:induction false} BackwardReads(g: Geometry, j: int)
    requires Fits(g) && g.hasSource && g.back && g.dx > g.sx && 0 <= j < NWords(g)
    ensures ThisCol(g, j) < DestCol(g, j)
  {
    Alignment(g, j);
    assert 16 * ((g.sx - g.dx - Skew(g)) / 16) == g.sx - g.dx - Skew(g);
  }

  lemma {:induction false} ForwardReads(g: Geometry, j: int)
    requires Fits(g) && g.hasSource && !g.back && g.dx <= g.sx && 0 <= j < NWords(g)
    ensures ThisCol(g, j) >= DestCol(g, j)
  {
    Alignment(g, j);
    assert 16 * ((g.sx - g.dx - Skew(g)) / 16) == g.sx - g.dx - Skew(g);
  }

  // The specification, pixel by pixel

  predicate InRectangle(g: Geometry, x: int, y: int) {
    InX(g, x) && g.dy <= y < g.dy + g.h
  }

  // With no source form every source pixel is set.
  predicate SourceSet(g: Geometry, src: seq<Bits>, x: int, y: int) {
    g.hasSource ==> PixelAt(src, g.sourceRaster, x + g.sx - g.dx, y + g.sy - g.dy)
  }

  // With no halftone form (an empty sequence) every halftone pixel is set.
  predicate HalftoneSet(halftone: seq<Bits>, x: int, y: int) {
    halftone != [] ==> Pixel(WordAt(halftone, y % 16), x % 16)
  }

  // Pixel (x, y) of the destination after the transfer.
  predicate Wanted(g: Geometry, rule: int, src: seq<Bits>, halftone: seq<Bits>, before: seq<Bits>, x: int, y: int) {
    if InRectangle(g, x, y)
    then RuleBit(rule, SourceSet(g, src, x, y) && HalftoneSet(halftone, x, y), PixelAt(before, g.destRaster, x, y))
    else PixelAt(before, g.destRaster, x, y)
  }

  // What the copying does to pixel k of word c in a row of the rectangle.
  predicate DonePixel(g: Geometry, rule: int, src: seq<Bits>, halftone: seq<Bits>, before: seq<Bits>, c: int, y: int,
                      word: Bits, k: int) {
    var x := 16 * c + k;
    if Written(g, x) then
      (g.exact && InX(g, x) ==> (Pixel(word, k) <==> Wanted(g, rule, src, halftone, before, x, y))) &&
      (rule == 15 ==> Pixel(word, k))
    else Pixel(word, k) <==> PixelAt(before, g.destRaster, x, y)
  }

  ghost predicate DoneWord(g: Geometry, rule: int, src: seq<Bits>, halftone: seq<Bits>, before: seq<Bits>, c: int,
                           y: int, word: Bits) {
    forall k {:trigger DonePixel(g, rule, src, halftone, before, c, y, word, k)} :: Position(k) ==>
      DonePixel(g, rule, src, halftone, before, c, y, word, k)
  }

  // The word that is stored.
  function Stored(g: Geometry, rule: int, j: int, source: Bits, dest: Bits): Bits
    requires IsRule(rule)
  {
    Or(And(MaskAt(g, j), Merge(rule, source, dest)), And(Not(MaskAt(g, j)), dest))
  }

  // The masked source word m is right at every pixel of the rectangle in word (c, y).
  ghost predicate SourceReady(g: Geometry, src: seq<Bits>, halftone: seq<Bits>, c: int, y: int, m: Bits) {
    forall k {:trigger Pixel(m, k)} :: g.exact && Position(k) && InX(g, 16 * c + k) ==>
      (Pixel(m, k) <==> SourceSet(g, src, 16 * c + k, y) && HalftoneSet(halftone, 16 * c + k, y))
  }

  function HalftoneWord(halftone: seq<Bits>, y: int): Bits {
    if halftone == [] then AllOnes() else WordAt(halftone, y % 16)
  }

  lemma {:induction false} HalftonePixel(halftone: seq<Bits>, c: int, y: int, k: int)
    requires Position(k)
    ensures Pixel(HalftoneWord(halftone, y), k) <==> HalftoneSet(halftone, 16 * c + k, y)
  {
    assert (16 * c + k) % 16 == k;
  }

  // The same before the halftone.
  ghost predicate SkewReady(g: Geometry, src: seq<Bits>, c: int, y: int, m: Bits) {
    forall k {:trigger Pixel(m, k)} :: g.exact && Position(k) && InX(g, 16 * c + k) ==>
      (Pixel(m, k) <==> SourceSet(g, src, 16 * c + k, y))
  }

  lemma {:induction false} SkewIsReady(g: Geometry, src: seq<Bits>, i: int, j: int, prevWord: Bits, thisWord: Bits,
                                       skewed: Bits)
    requires Fits(g) && g.hasSource && 0 <= j < NWords(g) && skewed == Shifted(g, prevWord, thisWord)
    requires Holds(g, src, i, PrevCol(g, j), prevWord) && Holds(g, src, i, ThisCol(g, j), thisWord)
    ensures SkewReady(g, src, DestCol(g, j), DestRow(g, i), skewed)
  {
    forall k | g.exact && Position(k) && InX(g, 16 * DestCol(g, j) + k)
      ensures Pixel(skewed, k) <==> SourceSet(g, src, 16 * DestCol(g, j) + k, DestRow(g, i))
    {
      ShiftedPixel(g, src, i, j, prevWord, thisWord, k);
      assert SourceRow(g, i) == DestRow(g, i) + g.sy - g.dy;
    }
  }

  lemma {:induction false} AllSkewReady(g: Geometry, src: seq<Bits>, c: int, y: int, halftone: seq<Bits>)
    requires !g.hasSource
    ensures SourceReady(g, src, halftone, c, y, And(HalftoneWord(halftone, y), HalftoneWord(halftone, y)))
  {
    forall k | Position(k)
      ensures Pixel(HalftoneWord(halftone, y), k) <==> HalftoneSet(halftone, 16 * c + k, y)
    {
      HalftonePixel(halftone, c, y, k);
    }
  }

  lemma {:induction false} HalftoneIsReady(g: Geometry, src: seq<Bits>, halftone: seq<Bits>, c: int, y: int,
                                           skewed: Bits)
    requires SkewReady(g, src, c, y, skewed)
    ensures SourceReady(g, src, halftone, c, y, And(skewed, HalftoneWord(halftone, y)))
  {
    forall k | Position(k)
      ensures Pixel(HalftoneWord(halftone, y), k) <==> HalftoneSet(halftone, 16 * c + k, y)
    {
      HalftonePixel(halftone, c, y, k);
    }
  }

  lemma {:induction false} StoredPixel(g: Geometry, rule: int, src: seq<Bits>, halftone: seq<Bits>, before: seq<Bits>,
                                       i: int, j: int, m: Bits, dest: Bits, k: int)
    requires Fits(g) && IsRule(rule) && 0 <= i < g.h && 0 <= j < NWords(g) && Position(k)
    requires dest == WordAt(before, Index(g.destRaster, DestCol(g, j), DestRow(g, i)))
    requires SourceReady(g, src, halftone, DestCol(g, j), DestRow(g, i), m)
    ensures DonePixel(g, rule, src, halftone, before, DestCol(g, j), DestRow(g, i), Stored(g, rule, j, m, dest), k)
  {
    var e, y := DestCol(g, j), DestRow(g, i);
    MaskBits(g, j, k);
    MergeBit(rule, m, dest, k);
    ChoiceBit(MaskAt(g, j), Merge(rule, m, dest), dest, k);
    assert (16 * e + k) / 16 == e && (16 * e + k) % 16 == k;
    assert rule == 15 ==> RuleBit(rule, Pixel(m, k), Pixel(dest, k));
  }

  // The word stored is right wherever the mask lets it through.
  lemma {:induction false} StoredWord(g: Geometry, rule: int, src: seq<Bits>, halftone: seq<Bits>, before: seq<Bits>,
                                      i: int, j: int, m: Bits, dest: Bits)
    requires Fits(g) && IsRule(rule) && 0 <= i < g.h && 0 <= j < NWords(g)
    requires dest == WordAt(before, Index(g.destRaster, DestCol(g, j), DestRow(g, i)))
    requires SourceReady(g, src, halftone, DestCol(g, j), DestRow(g, i), m)
    ensures DoneWord(g, rule, src, halftone, before, DestCol(g, j), DestRow(g, i), Stored(g, rule, j, m, dest))
  {
    forall k | Position(k)
      ensures DonePixel(g, rule, src, halftone, before, DestCol(g, j), DestRow(g, i), Stored(g, rule, j, m, dest), k)
    {
      StoredPixel(g, rule, src, halftone, before, i, j, m, dest, k);
    }
  }

  // The state of the copying

  ghost predicate Progress(g: Geometry, rule: int, src: seq<Bits>, halftone: seq<Bits>, before: seq<Bits>,
                           now: seq<Bits>, i: int, j: int) {
    forall u {:trigger OpenCopy(u)} :: OpenCopy(u) ==>
      |now| == |before| && forall c, y {:trigger WordAt(now, Index(g.destRaster, c, y))} :: 0 <= c < g.destRaster ==>
        if WordDone(g, i, j, c, y) then
          DoneWord(g, rule, src, halftone, before, c, y, WordAt(now, Index(g.destRaster, c, y)))
        else WordAt(now, Index(g.destRaster, c, y)) == WordAt(before, Index(g.destRaster, c, y))
  }

  ghost predicate OpenCopy(u: int) {
    true
  }

  lemma {:induction false} ProgressBegins(g: Geometry, rule: int, src: seq<Bits>, halftone: seq<Bits>,
                                          before: seq<Bits>)
    ensures Progress(g, rule, src, halftone, before, before, 0, 0)
  {
  }

  lemma {:induction false} Product(a: int, b: int)
    requires 0 <= a && 0 <= b
    ensures 0 <= a * b
  {
  }

  lemma {:induction false} IndexOrder(raster: int, c: int, y: int, c': int, y': int)
    requires 0 <= c < raster && 0 <= c' && y < y'
    ensures Index(raster, c, y) < Index(raster, c', y')
  {
    Product(y' - y - 1, raster);
    assert (y' - y - 1) * raster == y' * raster - y * raster - raster;
  }

  lemma {:induction false} IndexOnce(raster: int, c: int, y: int, c': int, y': int)
    requires 0 <= c < raster && 0 <= c' < raster && Index(raster, c, y) == Index(raster, c', y')
    ensures c == c' && y == y'
  {
    if y < y' {
      IndexOrder(raster, c, y, c', y');
    } else if y' < y {
      IndexOrder(raster, c', y', c, y);
    }
  }

  lemma {:induction false} IndexInForm(raster: int, c: int, y: int, height: int)
    requires 0 <= c < raster && 0 <= y < height
    ensures 0 <= Index(raster, c, y) < raster * height
  {
    Product(y, raster);
    IndexOrder(raster, c, y, 0, height);
    assert Index(raster, 0, height) == raster * height;
  }

  lemma {:induction false} ProgressReads(g: Geometry, rule: int, src: seq<Bits>, halftone: seq<Bits>, before: seq<Bits>,
                                         now: seq<Bits>, i: int, j: int, c: int, y: int)
    requires Progress(g, rule, src, halftone, before, now, i, j) && 0 <= c < g.destRaster && !WordDone(g, i, j, c, y)
    ensures WordAt(now, Index(g.destRaster, c, y)) == WordAt(before, Index(g.destRaster, c, y))
  {
    assert OpenCopy(0);
  }

  // One word more.
  lemma {:induction false} ProgressWord(g: Geometry, rule: int, src: seq<Bits>, halftone: seq<Bits>, before: seq<Bits>,
                                        now: seq<Bits>, i: int, j: int, word: Bits)
    requires Fits(g) && 0 <= i < g.h && 0 <= j < NWords(g) && Progress(g, rule, src, halftone, before, now, i, j)
    requires 0 <= Index(g.destRaster, DestCol(g, j), DestRow(g, i)) < |now|
    requires DoneWord(g, rule, src, halftone, before, DestCol(g, j), DestRow(g, i), word)
    ensures Progress(g, rule, src, halftone, before, now[Index(g.destRaster, DestCol(g, j), DestRow(g, i)) := word], i,
      j + 1)
  {
    Columns(g);
    ColumnsInRange(g, j);
    assert OpenCopy(0);
    var at := Index(g.destRaster, DestCol(g, j), DestRow(g, i));
    var now' := now[at := word];
    forall c, y | 0 <= c < g.destRaster
      ensures if WordDone(g, i, j + 1, c, y) then
        DoneWord(g, rule, src, halftone, before, c, y, WordAt(now', Index(g.destRaster, c, y)))
              else WordAt(now', Index(g.destRaster, c, y)) == WordAt(before, Index(g.destRaster, c, y))
    {
      OneMoreWord(g, i, j, c, y);
      if Index(g.destRaster, c, y) == at {
        IndexOnce(g.destRaster, c, y, DestCol(g, j), DestRow(g, i));
      } else {
        assert WordAt(now', Index(g.destRaster, c, y)) == WordAt(now, Index(g.destRaster, c, y));
      }
    }
  }

  lemma {:induction false} OneMoreWord(g: Geometry, i: int, j: int, c: int, y: int)
    requires Fits(g) && 0 <= i < g.h && 0 <= j < NWords(g)
    ensures WordDone(g, i, j + 1, c, y) <==> WordDone(g, i, j, c, y) || (c == DestCol(g, j) && y == DestRow(g, i))
    ensures !WordDone(g, i, j, DestCol(g, j), DestRow(g, i))
  {
    ColumnsInRange(g, j);
  }

  lemma {:induction false} ProgressRow(g: Geometry, rule: int, src: seq<Bits>, halftone: seq<Bits>, before: seq<Bits>,
                                       now: seq<Bits>, i: int)
    requires Fits(g) && Progress(g, rule, src, halftone, before, now, i, NWords(g))
    ensures Progress(g, rule, src, halftone, before, now, i + 1, 0)
  {
    Columns(g);
    assert OpenCopy(0);
    forall c, y | 0 <= c < g.destRaster
      ensures WordDone(g, i + 1, 0, c, y) <==> WordDone(g, i, NWords(g), c, y)
    {
    }
  }

  // What the transfer leaves: exactly the pixels that the masks let through are changed, and those
  // of the rectangle among them are right.
  predicate OutcomeAt(g: Geometry, rule: int, src: seq<Bits>, halftone: seq<Bits>, before: seq<Bits>, after: seq<Bits>,
                      x: int, y: int) {
    if Written(g, x) && g.dy <= y < g.dy + g.h
    then (g.exact && InX(g, x) ==>
      (PixelAt(after, g.destRaster, x, y) <==> Wanted(g, rule, src, halftone, before, x, y))) &&
      (rule == 15 ==> PixelAt(after, g.destRaster, x, y))
    else PixelAt(after, g.destRaster, x, y) <==> PixelAt(before, g.destRaster, x, y)
  }

  ghost predicate Outcome(g: Geometry, rule: int, src: seq<Bits>, halftone: seq<Bits>, before: seq<Bits>,
                          after: seq<Bits>) {
    |after| == |before| && forall x, y {:trigger PixelAt(after, g.destRaster, x, y)} :: 0 <= x < 16 * g.destRaster ==>
      OutcomeAt(g, rule, src, halftone, before, after, x, y)
  }

  // Every pixel is what it should be.
  ghost predicate Right(g: Geometry, rule: int, src: seq<Bits>, halftone: seq<Bits>, before: seq<Bits>,
                        after: seq<Bits>) {
    forall x, y {:trigger PixelAt(after, g.destRaster, x, y)} :: 0 <= x < 16 * g.destRaster ==>
      (PixelAt(after, g.destRaster, x, y) <==> Wanted(g, rule, src, halftone, before, x, y))
  }

  lemma {:induction false} ProgressEnds(g: Geometry, rule: int, src: seq<Bits>, halftone: seq<Bits>, before: seq<Bits>,
                                        now: seq<Bits>)
    requires Fits(g) && Progress(g, rule, src, halftone, before, now, g.h, 0)
    ensures Outcome(g, rule, src, halftone, before, now)
  {
    assert OpenCopy(0);
    forall x, y | 0 <= x < 16 * g.destRaster
      ensures OutcomeAt(g, rule, src, halftone, before, now, x, y)
    {
      var c, k := x / 16, x % 16;
      assert x == 16 * c + k && Position(k);
      var word := WordAt(now, Index(g.destRaster, c, y));
      assert WordDone(g, g.h, 0, c, y) <==> FirstCol(g) <= c <= LastCol(g) && g.dy <= y < g.dy + g.h;
      if WordDone(g, g.h, 0, c, y) {
        assert DonePixel(g, rule, src, halftone, before, c, y, word, k);
      }
      assert Written(g, x) ==> FirstCol(g) <= c <= LastCol(g);
    }
  }

  lemma {:induction false} StraightIsRight(g: Geometry, rule: int, src: seq<Bits>, halftone: seq<Bits>,
                                           before: seq<Bits>, after: seq<Bits>)
    requires Fits(g) && g.exact && Straight(g) && Outcome(g, rule, src, halftone, before, after)
    ensures Right(g, rule, src, halftone, before, after)
  {
    forall x, y | 0 <= x < 16 * g.destRaster
      ensures PixelAt(after, g.destRaster, x, y) <==> Wanted(g, rule, src, halftone, before, x, y)
    {
      assert OutcomeAt(g, rule, src, halftone, before, after, x, y);
    }
  }

  // When the transfer is not what was asked for: a row copied backwards within one word.

  ghost function Blank(g: Geometry): seq<Bits>
    requires Fits(g)
  {
    Product(g.destRaster, g.dy + g.h);
    seq(g.destRaster * (g.dy + g.h), n => NoBits())
  }

  lemma {:induction false} BlankPixel(g: Geometry, x: int, y: int)
    requires Fits(g)
    ensures !PixelAt(Blank(g), g.destRaster, x, y)
  {
  }

  lemma {:induction false} NothingWritten(g: Geometry, blank: seq<Bits>, after: seq<Bits>)
    requires Fits(g) && !Straight(g) && g.w < StartBits(g) && blank == Blank(g) &&
      Outcome(g, 15, blank, [], blank, after)
    ensures !Right(g, 15, blank, [], blank, after)
  {
    BlankPixel(g, g.dx, g.dy);
    assert !Written(g, g.dx) && OutcomeAt(g, 15, blank, [], blank, after, g.dx, g.dy);
    assert !PixelAt(after, g.destRaster, g.dx, g.dy) && Wanted(g, 15, blank, [], blank, g.dx, g.dy);
  }

  lemma {:induction false} TooMuchWritten(g: Geometry, blank: seq<Bits>, after: seq<Bits>)
    requires Fits(g) && !Straight(g) && g.w == StartBits(g) && blank == Blank(g) &&
      Outcome(g, 15, blank, [], blank, after)
    ensures !Right(g, 15, blank, [], blank, after)
  {
    Columns(g);
    var left := 16 * FirstCol(g);
    BlankPixel(g, left, g.dy);
    assert Written(g, left) && OutcomeAt(g, 15, blank, [], blank, after, left, g.dy);
    assert PixelAt(after, g.destRaster, left, g.dy) && !Wanted(g, 15, blank, [], blank, left, g.dy);
  }

  // Setting pixels of a blank form goes wrong, whatever the transfer leaves.
  lemma {:induction false} BlankGoesWrong(g: Geometry, after: seq<Bits>)
    requires Fits(g) && !Straight(g) && Outcome(g, 15, Blank(g), [], Blank(g), after)
    ensures !Right(g, 15, Blank(g), [], Blank(g), after)
  {
    Columns(g);
    if g.w < StartBits(g) {
      NothingWritten(g, Blank(g), after);
    } else {
      TooMuchWritten(g, Blank(g), after);
    }
  }

  // If the exchange of masks does no harm the outcome is right for all contents of the forms; and if
  // it does, no outcome is right when the pixels of a blank form are to be set.
  lemma {:induction false} RightExactlyIfStraight(g: Geometry)
    requires Fits(g) && g.exact
    ensures Straight(g) ==>
      forall rule, src, halftone, before, after {:trigger Outcome(g, rule, src, halftone, before, after)} ::
        IsRule(rule) && Outcome(g, rule, src, halftone, before, after) ==> Right(g, rule, src, halftone, before, after)
    ensures !Straight(g) ==>
      forall after {:trigger Outcome(g, 15, Blank(g), [], Blank(g), after)} ::
        Outcome(g, 15, Blank(g), [], Blank(g), after) ==> !Right(g, 15, Blank(g), [], Blank(g), after)
  {
    if Straight(g) {
      forall rule, src, halftone, before, after | IsRule(rule) && Outcome(g, rule, src, halftone, before, after)
        ensures Right(g, rule, src, halftone, before, after)
      {
        StraightIsRight(g, rule, src, halftone, before, after);
      }
    } else {
      forall after | Outcome(g, 15, Blank(g), [], Blank(g), after)
        ensures !Right(g, 15, Blank(g), [], Blank(g), after)
      {
        BlankGoesWrong(g, after);
      }
    }
  }
}
