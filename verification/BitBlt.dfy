// The bit-block transfer machine.
module BitBlts {
  import opened BitWords
  import opened BitGeometry
  import opened BitCopy

  // A rectangle of pixels, sixteen to a word, each row starting a new word.
  class Form {
    const width: int
    const height: int
    const bits: array<Bits>

    constructor (width: int, height: int, bits: array<Bits>)
      ensures this.width == width && this.height == height && this.bits == bits
    {
      this.width := width;
      this.height := height;
      this.bits := bits;
    }
  }

  // Division as C does it, towards zero.
  function Quotient(n: int, d: int): int
    requires d > 0
  {
    if n >= 0 then n / d else -(-n / d)
  }

  function RasterOf(width: int): int {
    Quotient(width - 1, 16) + 1
  }

  // The words that the bits of a form should have.
  function FormWordCount(width: int, height: int): int {
    Quotient(width + 15, 16) * height
  }

  predicate WellSized(form: Form) {
    FormWordCount(form.width, form.height) == form.bits.Length
  }

  // What a transfer is asked to do.
  datatype Request = Request(destX: int, destY: int, width: int, height: int, sourceX: int, sourceY: int, clipX: int,
                             clipY: int, clipWidth: int, clipHeight: int, destWidth: int, destHeight: int,
                             hasSource: bool, sourceWidth: int, sourceHeight: int)

  // A destination pixel that the request covers: it lies in the request's rectangle, in the clipping
  // rectangle and in the destination, and the source pixel for it lies in the source.
  predicate Visible(r: Request, x: int, y: int) {
    r.destX <= x < r.destX + r.width && r.destY <= y < r.destY + r.height &&
    r.clipX <= x < r.clipX + r.clipWidth && r.clipY <= y < r.clipY + r.clipHeight &&
    0 <= x < r.destWidth && 0 <= y < r.destHeight &&
    (r.hasSource ==> 0 <= x + r.sourceX - r.destX < r.sourceWidth && 0 <= y + r.sourceY - r.destY < r.sourceHeight)
  }

  ghost predicate NothingVisible(r: Request) {
    forall x, y {:trigger Visible(r, x, y)} :: !Visible(r, x, y)
  }

  // The rectangle of g is what is visible of the request, and its source is where the request says.
  ghost predicate Shows(g: Geometry, r: Request) {
    Fits(g) && g.hasSource == r.hasSource && g.sx - g.dx == r.sourceX - r.destX && g.sy - g.dy == r.sourceY - r.destY &&
    forall x, y {:trigger Visible(r, x, y)} {:trigger InRectangle(g, x, y)} :: InRectangle(g, x, y) <==>
      Visible(r, x, y)
  }

  predicate InBox(x: int, y: int, left: int, top: int, w: int, h: int) {
    left <= x < left + w && top <= y < top + h
  }

  function Max(a: int, b: int): int {
    if a >= b then a else b
  }

  function Min(a: int, b: int): int {
    if a <= b then a else b
  }

  // A clipped transfer: its geometry, and the words of the forms before it.
  datatype Job = Job(g: Geometry, rule: int, src: seq<Bits>, halftone: seq<Bits>, before: seq<Bits>, sourceHeight: int,
                     destHeight: int)

  ghost predicate Doable(job: Job) {
    Fits(job.g) && IsRule(job.rule) && job.g.dy + job.g.h <= job.destHeight &&
      |job.before| == job.g.destRaster * job.destHeight &&
    (job.g.hasSource ==> job.g.sy + job.g.h <= job.sourceHeight && |job.src| == job.g.sourceRaster * job.sourceHeight)
  }

  class BitBlt {
    const destForm: Form
    const sourceForm: Form?
    const halftoneForm: Form?
    const combinationRule: int
    var destX: int
    var destY: int
    var width: int
    var height: int
    var sourceX: int
    var sourceY: int
    var clipX: int
    var clipY: int
    var clipWidth: int
    var clipHeight: int

    var sx: int
    var sy: int
    var dx: int
    var dy: int
    var w: int
    var h: int
    var sourceRaster: int
    var destRaster: int
    var skew: int
    var skewMask: Bits
    var mask1: Bits
    var mask2: Bits
    var nWords: int
    var hDir: int
    var vDir: int
    var preload: bool
    var sourceIndex: int
    var sourceDelta: int
    var destIndex: int
    var destDelta: int

    var updatedX: int
    var updatedY: int
    var updatedWidth: int
    var updatedHeight: int

    constructor (destForm: Form, sourceForm: Form?, halftoneForm: Form?, combinationRule: int, destX: int, destY: int,
                 width: int, height: int, sourceX: int, sourceY: int, clipX: int, clipY: int, clipWidth: int,
                 clipHeight: int)
      ensures this.destForm == destForm && this.sourceForm == sourceForm && this.halftoneForm == halftoneForm
      ensures this.combinationRule == combinationRule
      ensures Asked() ==
        Request(destX, destY, width, height, if sourceForm == null then 0 else sourceX, if sourceForm == null then 0
          else sourceY,
                                 clipX, clipY, clipWidth, clipHeight, destForm.width, destForm.height,
                                 sourceForm != null, if sourceForm == null then 0
                                   else sourceForm.width, if sourceForm == null then 0 else sourceForm.height)
    {
      this.destForm := destForm;
      this.sourceForm := sourceForm;
      this.halftoneForm := halftoneForm;
      this.combinationRule := combinationRule;
      this.destX := destX;
      this.destY := destY;
      this.width := width;
      this.height := height;
      this.sourceX := if sourceForm == null then 0 else sourceX;
      this.sourceY := if sourceForm == null then 0 else sourceY;
      this.clipX := clipX;
      this.clipY := clipY;
      this.clipWidth := clipWidth;
      this.clipHeight := clipHeight;
      this.updatedX := 0;
      this.updatedY := 0;
      this.updatedWidth := 0;
      this.updatedHeight := 0;
      this.skewMask := NoBits();
      this.mask1 := NoBits();
      this.mask2 := NoBits();
    }

    function Asked(): Request
      reads this
    {
      Request(destX, destY, width, height, sourceX, sourceY, clipX, clipY, clipWidth, clipHeight, destForm.width,
        destForm.height,
              sourceForm != null, if sourceForm == null then 0 else sourceForm.width, if sourceForm == null then 0
                else sourceForm.height)
    }

    // The clipping rectangle cut to the destination.
    method ClipToForm()
      modifies this`clipX, this`clipY, this`clipWidth, this`clipHeight
      ensures clipX == Max(old(clipX), 0) && clipX + clipWidth == Min(old(clipX + clipWidth), destForm.width)
      ensures clipY == Max(old(clipY), 0) && clipY + clipHeight == Min(old(clipY + clipHeight), destForm.height)
    {
      if clipX < 0 {
        clipWidth := clipWidth + clipX;
        clipX := 0;
      }
      if clipY < 0 {
        clipHeight := clipHeight + clipY;
        clipY := 0;
      }
      if clipX + clipWidth > destForm.width {
        clipWidth := destForm.width - clipX;
      }
      if clipY + clipHeight > destForm.height {
        clipHeight := destForm.height - clipY;
      }
    }

    // The rectangle cut to the clipping rectangle.
    method ClipToClip()
      modifies this`sx, this`sy, this`dx, this`dy, this`w, this`h
      ensures dx == Max(destX, clipX) && dx + w == Min(destX + width, clipX + clipWidth) && sx - dx == sourceX - destX
      ensures dy == Max(destY, clipY) && dy + h == Min(destY + height, clipY + clipHeight) && sy - dy == sourceY - destY
    {
      if destX >= clipX {
        sx := sourceX;
        dx := destX;
        w := width;
      } else {
        sx := sourceX + (clipX - destX);
        w := width - (clipX - destX);
        dx := clipX;
      }
      if dx + w > clipX + clipWidth {
        w := w - ((dx + w) - (clipX + clipWidth));
      }
      if destY >= clipY {
        sy := sourceY;
        dy := destY;
        h := height;
      } else {
        sy := sourceY + clipY - destY;
        h := height - (clipY - destY);
        dy := clipY;
      }
      if dy + h > clipY + clipHeight {
        h := h - ((dy + h) - (clipY + clipHeight));
      }
    }

    // The rectangle cut to the source.
    method ClipToSource(sourceForm: Form)
      modifies this`sx, this`sy, this`dx, this`dy, this`w, this`h
      ensures sx - dx == old(sx - dx) && sy - dy == old(sy - dy)
      ensures dx == Max(old(dx), old(dx - sx)) && dx + w == Min(old(dx + w), old(dx - sx) + sourceForm.width)
      ensures dy == Max(old(dy), old(dy - sy)) && dy + h == Min(old(dy + h), old(dy - sy) + sourceForm.height)
    {
      if sx < 0 {
        dx := dx - sx;
        w := w + sx;
        sx := 0;
      }
      if sx + w > sourceForm.width {
        w := w - (sx + w - sourceForm.width);
      }
      if sy < 0 {
        dy := dy - sy;
        h := h + sy;
        sy := 0;
      }
      if sy + h > sourceForm.height {
        h := h - (sy + h - sourceForm.height);
      }
    }

    // The rectangle that is left is exactly what the request covers.
    method ClipRange()
      modifies this`clipX, this`clipY, this`clipWidth, this`clipHeight, this`sx, this`sy, this`dx, this`dy, this`w,
        this`h
      ensures w > 0 && h > 0 ==> forall x, y {:trigger Visible(old(Asked()), x, y)} :: Visible(old(Asked()), x, y) <==>
        InBox(x, y, dx, dy, w, h)
      ensures !(w > 0 && h > 0) ==> forall x, y {:trigger Visible(old(Asked()), x, y)} :: !Visible(old(Asked()), x, y)
      ensures sx - dx == sourceX - destX && sy - dy == sourceY - destY
    {
      ClipToForm();
      ClipToClip();
      if sourceForm == null {
        return;
      }
      ClipToSource(sourceForm);
    }

    // Another form that has the bits of the destination is still read in time when its rows are as
    // long and what is copied goes up, or left, or clear of where it was.
    predicate ReadInTime(sx: int, sy: int, dx: int, dy: int, h: int) {
      sourceForm == null || sourceForm == destForm || sourceForm.bits != destForm.bits ||
      (RasterOf(sourceForm.width) == RasterOf(destForm.width) && (dy < sy || (dy == sy && dx <= sx) || dy - sy >= h))
    }

    predicate HalftoneApart() {
      halftoneForm == null || halftoneForm.bits != destForm.bits
    }

    // The geometry of the clipped transfer: a form copied onto itself goes up or back where it must.
    function Clipped(): Geometry
      reads this
    {
      Geometry(sx, sy, dx, dy, w, h, sourceForm != null, if sourceForm == null then 1
        else RasterOf(sourceForm.width), RasterOf(destForm.width),
               sourceForm == destForm && dy == sy && dx > sx, sourceForm == destForm &&
                 dy > sy, ReadInTime(sx, sy, dx, dy, h) && HalftoneApart())
    }

    // Skew and edge masks, before the directions are known.
    ghost predicate MasksFor(g: Geometry)
      reads this
    {
      destRaster == g.destRaster && (g.hasSource ==> sourceRaster == g.sourceRaster) &&
      skew == Skew(g) && skewMask == SkewMask(g.(back := false)) && nWords == NWords(g) && mask1 == LeftMask(g) &&
        mask2 == RightEdgeMask(g)
    }

    method ComputeMasks(ghost g: Geometry)
      requires g == Clipped() && Fits(g)
      modifies this`destRaster, this`sourceRaster, this`skew, this`mask1, this`mask2, this`skewMask, this`nWords
      ensures MasksFor(g)
    {
      destRaster := RasterOf(destForm.width);
      if sourceForm != null {
        sourceRaster := RasterOf(sourceForm.width);
      }
      skew := (sx - dx) % 16;
      EdgeMasks(g);
      skewMask := if skew == 0 then NoBits() else RightMask(16 - skew);
    }

    method EdgeMasks(ghost g: Geometry)
      requires g.dx == dx && g.w == w && w > 0
      modifies this`mask1, this`mask2, this`nWords
      ensures nWords == NWords(g) && mask1 == LeftMask(g) && mask2 == RightEdgeMask(g)
    {
      var startBits := 16 - dx % 16;
      mask1 := RightMask(startBits);
      var endBits := 15 - (dx + w - 1) % 16;
      mask2 := Not(RightMask(endBits));
      if w < startBits {
        mask1 := And(mask1, mask2);
        mask2 := NoBits();
        nWords := 1;
      } else {
        nWords := (w - startBits + 15) / 16 + 1;
      }
    }

    ghost predicate DirectedFor(g: Geometry)
      reads this
    {
      destRaster == g.destRaster && (g.hasSource ==> sourceRaster == g.sourceRaster) && w == g.w && h == g.h &&
      skew == Skew(g) && skewMask == SkewMask(g) && nWords == NWords(g) && mask1 == FirstMask(g) &&
        mask2 == LastMask(g) &&
      hDir == HDir(g) && vDir == VDir(g) && sx == StartX(g) && sy == SourceRow(g, 0) && dy == DestRow(g, 0) &&
      dx == (if g.back then g.dx + g.w - 1 else g.dx)
    }

    // The registers before the directions are chosen: to the right and down.
    ghost predicate Undirected(g: Geometry)
      reads this
    {
      MasksFor(g) && hDir == vDir == 1 && sx == g.sx && sy == g.sy && dx == g.dx && dy == g.dy && w == g.w && h == g.h
    }

    method CheckOverlap(ghost g: Geometry)
      requires g == Clipped() && MasksFor(g)
      modifies this`hDir, this`vDir, this`sx, this`sy, this`dx, this`dy, this`skewMask, this`mask1, this`mask2
      ensures DirectedFor(g)
    {
      hDir := 1;
      vDir := 1;
      if sourceForm == destForm && dy >= sy {
        if dy > sy {
          GoUp(g);
        } else if dx > sx {
          GoBack(g);
        }
      }
    }

    method GoUp(ghost g: Geometry)
      requires Undirected(g) && g.up && !g.back
      modifies this`vDir, this`sy, this`dy
      ensures DirectedFor(g)
    {
      vDir := -1;
      sy := sy + h - 1;
      dy := dy + h - 1;
    }

    method GoBack(ghost g: Geometry)
      requires Undirected(g) && g.back && !g.up
      modifies this`hDir, this`sx, this`dx, this`skewMask, this`mask1, this`mask2
      ensures DirectedFor(g)
    {
      hDir := -1;
      sx := sx + w - 1;
      dx := dx + w - 1;
      skewMask := Not(skewMask);
      mask1, mask2 := mask2, mask1;
    }

    // The registers of the copying loop at the start of a row.
    ghost predicate Offsets(g: Geometry)
      reads this
    {
      DirectedFor(g) && preload == Preload(g) &&
      destDelta == g.destRaster * VDir(g) - NWords(g) * HDir(g) &&
      (g.hasSource ==> sourceDelta == g.sourceRaster * VDir(g) - (NWords(g) + if Preload(g) then 1 else 0) * HDir(g))
    }

    method ChoosePreload(ghost g: Geometry)
      requires Fits(g) && DirectedFor(g) && g.hasSource == (sourceForm != null)
      modifies this`preload
      ensures preload == Preload(g)
    {
      preload := sourceForm != null && skew != 0 && skew <= sx % 16;
      if hDir < 0 {
        preload := !preload;
      }
    }

    method CalculateOffsets(ghost g: Geometry)
      requires Fits(g) && DirectedFor(g) && g.hasSource == (sourceForm != null)
      modifies this`preload, this`sourceIndex, this`destIndex, this`sourceDelta, this`destDelta
      ensures Offsets(g) && destIndex == Index(g.destRaster, DestCol(g, 0), DestRow(g, 0))
      ensures g.hasSource ==> sourceIndex == Index(g.sourceRaster, StartX(g) / 16, SourceRow(g, 0))
    {
      ChoosePreload(g);
      sourceIndex := sy * sourceRaster + Quotient(sx, 16);
      destIndex := dy * destRaster + Quotient(dx, 16);
      sourceDelta := (sourceRaster * vDir) - ((nWords + if preload then 1 else 0) * hDir);
      destDelta := (destRaster * vDir) - (nWords * hDir);
    }

    // The copying

    // The registers that the copying loop does not change.
    ghost predicate Steady(g: Geometry)
      reads this
    {
      destRaster == g.destRaster && (g.hasSource ==> sourceRaster == g.sourceRaster) && h == g.h &&
      skew == Skew(g) && skewMask == SkewMask(g) && nWords == NWords(g) && mask1 == FirstMask(g) &&
        mask2 == LastMask(g) &&
      hDir == HDir(g) && vDir == VDir(g) && preload == Preload(g) && g.hasSource == (sourceForm != null) &&
      destDelta == g.destRaster * VDir(g) - NWords(g) * HDir(g) &&
      (g.hasSource ==> sourceDelta == g.sourceRaster * VDir(g) - (NWords(g) + if Preload(g) then 1 else 0) * HDir(g))
    }

    // The forms are those of the job; a form copied onto itself changes under the copying.
    ghost predicate FormsOf(job: Job)
      reads this, destForm.bits, (if sourceForm == null then {} else {sourceForm.bits}),
        (if halftoneForm == null then {} else {halftoneForm.bits})
    {
      combinationRule == job.rule && destForm.bits.Length == |job.before| &&
      (if sourceForm == null then !job.g.hasSource
       else job.g.hasSource && sourceForm.bits.Length == |job.src| &&
            (job.g.exact ==>
               if sourceForm.bits == destForm.bits then
                 job.src == job.before && job.g.sourceRaster == job.g.destRaster && InTime(job.g)
               else sourceForm.bits[..] == job.src)) &&
      (if halftoneForm == null then job.halftone == []
       else halftoneForm.bits.Length == |job.halftone| >= 16 &&
            (job.g.exact ==> halftoneForm.bits != destForm.bits && halftoneForm.bits[..] == job.halftone))
    }

    ghost predicate Working(job: Job, i: int, j: int)
      reads this, destForm.bits, (if sourceForm == null then {} else {sourceForm.bits}),
        (if halftoneForm == null then {} else {halftoneForm.bits})
    {
      Doable(job) && Steady(job.g) && FormsOf(job) && 0 <= i && 0 <= j <= NWords(job.g) &&
      destIndex == Index(job.g.destRaster, DestCol(job.g, j), DestRow(job.g, i)) &&
      Progress(job.g, job.rule, job.src, job.halftone, job.before, destForm.bits[..], i, j)
    }

    // The source word fetched, if it is needed, is as it was before the transfer.
    lemma {:induction false} FetchedIsOld(job: Job, i: int, j: int, c: int)
      requires Working(job, i, j) && job.g.hasSource && 0 <= i < job.g.h && 0 <= c < job.g.sourceRaster
      requires job.g.exact && sourceForm.bits == destForm.bits ==> !WordDone(job.g, i, j, c, SourceRow(job.g, i))
      ensures var index := Index(job.g.sourceRaster, c, SourceRow(job.g, i));
        0 <= index < sourceForm.bits.Length && (job.g.exact ==> sourceForm.bits[index] == WordAt(job.src, index))
    {
      var g := job.g;
      IndexInForm(g.sourceRaster, c, SourceRow(g, i), job.sourceHeight);
      if g.exact && sourceForm.bits == destForm.bits {
        ProgressReads(g, job.rule, job.src, job.halftone, job.before, destForm.bits[..], i, j, c, SourceRow(g, i));
      }
    }

    method FetchSource(word: int, stale: Bits, ghost job: Job, ghost i: int) returns (thisWord: Bits)
      requires sourceForm != null && Working(job, i, word - 1) && 0 <= i < job.g.h && 1 <= word <= NWords(job.g)
      requires sourceIndex == Index(job.g.sourceRaster, ThisCol(job.g, word - 1), SourceRow(job.g, i))
      ensures Holds(job.g, job.src, i, ThisCol(job.g, word - 1), thisWord)
    {
      ghost var g, j := job.g, word - 1;
      thisWord := stale;
      if Needed(g, ThisCol(g, j)) {
        FetchInRaster(g, j);
        if g.exact && sourceForm.bits == destForm.bits {
          NotYetWritten(g, i, j);
        }
        FetchedIsOld(job, i, j, ThisCol(g, j));
      }
      if word <= sourceRaster && 0 <= sourceIndex < sourceForm.bits.Length {
        thisWord := sourceForm.bits[sourceIndex];
      }
    }

    // What the shifter must hold for word j of row i.
    ghost predicate Shifter(job: Job, i: int, j: int, prevWord: Bits, skewWord: Bits, halftoneWord: Bits)
      reads this
    {
      (job.g.exact ==> halftoneWord == HalftoneWord(job.halftone, DestRow(job.g, i))) &&
      if job.g.hasSource
      then Holds(job.g, job.src, i, PrevCol(job.g, j), prevWord) &&
        sourceIndex == Index(job.g.sourceRaster, ThisCol(job.g, j), SourceRow(job.g, i))
      else skewWord == halftoneWord
    }

    lemma {:induction false} DestinationInForm(job: Job, i: int, j: int)
      requires Working(job, i, j) && 0 <= i < job.g.h && 0 <= j < NWords(job.g)
      ensures 0 <= destIndex < destForm.bits.Length
      ensures destForm.bits[destIndex] ==
        WordAt(job.before, Index(job.g.destRaster, DestCol(job.g, j), DestRow(job.g, i)))
    {
      var g := job.g;
      Columns(g);
      ColumnsInRange(g, j);
      IndexInForm(g.destRaster, DestCol(g, j), DestRow(g, i), job.destHeight);
      OneMoreWord(g, i, j, DestCol(g, j), DestRow(g, i));
      ProgressReads(g, job.rule, job.src, job.halftone, job.before, destForm.bits[..], i, j, DestCol(g, j),
        DestRow(g, i));
    }

    // The merged word stored.  The index into the destination is never past its words, so that the
    // guard on it has nothing to stop.
    method StoreWord(word: int, sourceWord: Bits, mergeMask: Bits, ghost job: Job, ghost i: int)
      requires Working(job, i, word - 1) && 0 <= i < job.g.h && 1 <= word <= NWords(job.g) &&
        mergeMask == MaskAt(job.g, word - 1)
      requires SourceReady(job.g, job.src, job.halftone, DestCol(job.g, word - 1), DestRow(job.g, i), sourceWord)
      modifies this`sourceIndex, this`destIndex, destForm.bits
      ensures Working(job, i, word) && sourceIndex == old(sourceIndex) + hDir
    {
      ghost var g, j := job.g, word - 1;
      DestinationInForm(job, i, j);
      var destWord := destForm.bits[destIndex];
      var mergeWord := Merge(combinationRule, sourceWord, destWord);
      StoredWord(g, job.rule, job.src, job.halftone, job.before, i, j, sourceWord, destWord);
      ghost var now, stored := destForm.bits[..], Stored(g, job.rule, j, sourceWord, destWord);
      destForm.bits[destIndex] := Or(And(mergeMask, mergeWord), And(Not(mergeMask), destWord));
      assert destForm.bits[..] == now[destIndex := stored];
      ProgressWord(g, job.rule, job.src, job.halftone, job.before, now, i, j, stored);
      sourceIndex := sourceIndex + hDir;
      destIndex := destIndex + hDir;
      NextPrev(g, j);
    }

    // One word of a row.
    method CopyWord(word: int, prevWord: Bits, thisWord: Bits, skewWord: Bits, halftoneWord: Bits, mergeMask: Bits,
                    ghost job: Job, ghost i: int)
      returns (prevWord': Bits, thisWord': Bits, skewWord': Bits)
      requires Working(job, i, word - 1) && 0 <= i < job.g.h && 1 <= word <= NWords(job.g)
      requires Shifter(job, i, word - 1, prevWord, skewWord, halftoneWord) && mergeMask == MaskAt(job.g, word - 1)
      modifies this`sourceIndex, this`destIndex, destForm.bits
      ensures Working(job, i, word) && Shifter(job, i, word, prevWord', skewWord', halftoneWord)
    {
      prevWord', thisWord', skewWord' := prevWord, thisWord, skewWord;
      if sourceForm != null {
        prevWord' := And(prevWord', skewMask);
        thisWord' := FetchSource(word, thisWord, job, i);
        skewWord' := Or(prevWord', And(thisWord', Not(skewMask)));
        prevWord' := thisWord';
        skewWord' := Or(ShiftLeft(skewWord', skew), ShiftRight(skewWord', 16 - skew));
        SkewIsReady(job.g, job.src, i, word - 1, prevWord, thisWord', skewWord');
        HalftoneIsReady(job.g, job.src, job.halftone, DestCol(job.g, word - 1), DestRow(job.g, i), skewWord');
      } else {
        AllSkewReady(job.g, job.src, DestCol(job.g, word - 1), DestRow(job.g, i), job.halftone);
      }
      StoreWord(word, And(skewWord', halftoneWord), mergeMask, job, i);
      NextPrev(job.g, word - 1);
    }

    // The first source word of a row, when two are needed for the first word stored.
    method LoadShifter(halftoneWord: Bits, ghost job: Job, ghost i: int) returns (prevWord: Bits)
      requires Working(job, i, 0) && 0 <= i < job.g.h
      requires job.g.exact ==> halftoneWord == HalftoneWord(job.halftone, DestRow(job.g, i))
      requires job.g.hasSource ==> sourceIndex == Index(job.g.sourceRaster, StartX(job.g) / 16, SourceRow(job.g, i))
      modifies this`sourceIndex
      ensures Working(job, i, 0) && Shifter(job, i, 0, prevWord, halftoneWord, halftoneWord)
    {
      PreloadIsNeeded(job.g);
      prevWord := NoBits();
      if preload {
        PreloadedIsOld(job, i);
        prevWord := sourceForm.bits[sourceIndex];
        sourceIndex := sourceIndex + hDir;
      }
    }

    // One row.
    method CopyRow(i: int, halftoneWord: Bits, stale: Bits, ghost job: Job) returns (thisWord: Bits)
      requires Working(job, i - 1, 0) && 1 <= i <= job.g.h
      requires job.g.exact ==> halftoneWord == HalftoneWord(job.halftone, DestRow(job.g, i - 1))
      requires job.g.hasSource ==> sourceIndex == Index(job.g.sourceRaster, StartX(job.g) / 16, SourceRow(job.g, i - 1))
      modifies this`sourceIndex, this`destIndex, destForm.bits
      ensures Working(job, i, 0)
      ensures job.g.hasSource ==> sourceIndex == Index(job.g.sourceRaster, StartX(job.g) / 16, SourceRow(job.g, i))
    {
      var prevWord := LoadShifter(halftoneWord, job, i - 1);
      thisWord := CopyWords(halftoneWord, prevWord, stale, job, i - 1);
      FinishRow(job, i - 1);
    }

    // The words of a row, once the shifter is loaded.
    method CopyWords(halftoneWord: Bits, first: Bits, stale: Bits, ghost job: Job, ghost i: int)
      returns (thisWord: Bits)
      requires Working(job, i, 0) && 0 <= i < job.g.h && Shifter(job, i, 0, first, halftoneWord, halftoneWord)
      modifies this`sourceIndex, this`destIndex, destForm.bits
      ensures Working(job, i, NWords(job.g))
      ensures job.g.hasSource ==>
        sourceIndex == Index(job.g.sourceRaster, ThisCol(job.g, NWords(job.g)), SourceRow(job.g, i))
    {
      var prevWord, skewWord, mergeMask := first, halftoneWord, mask1;
      thisWord := stale;
      NextMask(job.g, 0);
      for word := 1 to nWords + 1
        invariant Working(job, i, word - 1) && Shifter(job, i, word - 1, prevWord, skewWord, halftoneWord)
        invariant word <= nWords ==> mergeMask == MaskAt(job.g, word - 1)
      {
        NextMask(job.g, word);
        prevWord, thisWord,
          skewWord := CopyWord(word, prevWord, thisWord, skewWord, halftoneWord, mergeMask, job, i);
        mergeMask := if word == nWords - 1 then mask2 else AllOnes();
      }
    }

    // The mask for the next word of the row; `word` of them have been copied.
    lemma {:induction false} NextMask(g: Geometry, word: int)
      requires Fits(g) && Steady(g) && 0 <= word <= nWords
      ensures nWords == NWords(g) >= 1
      ensures word < nWords ==>
        MaskAt(g, word) == if word == 0 then mask1 else if word == nWords - 1 then mask2 else AllOnes()
    {
      Columns(g);
    }

    // From the end of a row to the start of the next.
    method FinishRow(ghost job: Job, ghost i: int)
      requires Working(job, i, NWords(job.g)) && 0 <= i
      requires job.g.hasSource ==>
        sourceIndex == Index(job.g.sourceRaster, ThisCol(job.g, NWords(job.g)), SourceRow(job.g, i))
      modifies this`sourceIndex, this`destIndex
      ensures Working(job, i + 1, 0)
      ensures job.g.hasSource ==> sourceIndex == Index(job.g.sourceRaster, StartX(job.g) / 16, SourceRow(job.g, i + 1))
    {
      sourceIndex := sourceIndex + sourceDelta;
      destIndex := destIndex + destDelta;
      ProgressRow(job.g, job.rule, job.src, job.halftone, job.before, destForm.bits[..], i);
      Columns(job.g);
      NextRow(job.g, i);
    }

    // Without a source nothing is preloaded.
    lemma {:induction false} PreloadIsNeeded(g: Geometry)
      requires Fits(g)
      ensures Preload(g) ==> g.hasSource
      ensures g.hasSource ==> ThisCol(g, 0) == StartX(g) / 16 + (if Preload(g) then HDir(g) else 0)
      ensures g.hasSource && !Preload(g) ==> !Needed(g, PrevCol(g, 0))
    {
      if g.hasSource {
        FirstPrev(g);
      }
    }

    lemma {:induction false} PreloadedIsOld(job: Job, i: int)
      requires Working(job, i, 0) && 0 <= i < job.g.h && job.g.hasSource && Preload(job.g)
      requires sourceIndex == Index(job.g.sourceRaster, StartX(job.g) / 16, SourceRow(job.g, i))
      ensures 0 <= sourceIndex < sourceForm.bits.Length
      ensures Holds(job.g, job.src, i, PrevCol(job.g, 0), sourceForm.bits[sourceIndex])
    {
      FirstPrev(job.g);
      Columns(job.g);
      if job.g.exact && sourceForm.bits == destForm.bits {
        NotYetWritten(job.g, i, 0);
      }
      FetchedIsOld(job, i, 0, PrevCol(job.g, 0));
    }

    // The increments lead from the end of one row to the start of the next.
    lemma {:induction false} NextRow(g: Geometry, i: int)
      requires Fits(g)
      ensures Index(g.destRaster, DestCol(g, NWords(g)), DestRow(g, i)) + g.destRaster * VDir(g) - NWords(g) * HDir(g)
        == Index(g.destRaster, DestCol(g, 0), DestRow(g, i + 1))
      ensures g.hasSource ==>
        Index(g.sourceRaster, ThisCol(g, NWords(g)), SourceRow(g, i)) +
          g.sourceRaster * VDir(g) - (NWords(g) + if Preload(g) then 1 else 0) * HDir(g)
        == Index(g.sourceRaster, StartX(g) / 16, SourceRow(g, i + 1))
    {
      RowStep(g.destRaster, DestRow(g, i), VDir(g));
      RowStep(g.sourceRaster, SourceRow(g, i), VDir(g));
    }

    lemma {:induction false} RowStep(raster: int, y: int, step: int)
      ensures y * raster + raster * step == (y + step) * raster
    {
    }

    method CopyLoop(ghost job: Job)
      requires Working(job, 0, 0) && dy == DestRow(job.g, 0)
      requires job.g.hasSource ==> sourceIndex == Index(job.g.sourceRaster, StartX(job.g) / 16, SourceRow(job.g, 0))
      modifies this`sourceIndex, this`destIndex, this`dy, destForm.bits
      ensures Outcome(job.g, job.rule, job.src, job.halftone, job.before, destForm.bits[..])
    {
      var thisWord := NoBits();
      for i := 1 to h + 1
        invariant Working(job, i - 1, 0)
        invariant halftoneForm != null ==> dy == DestRow(job.g, i - 1)
        invariant job.g.hasSource ==>
          sourceIndex == Index(job.g.sourceRaster, StartX(job.g) / 16, SourceRow(job.g, i - 1))
      {
        var halftoneWord := AllOnes();
        if halftoneForm != null {
          halftoneWord := halftoneForm.bits[dy % 16];
          dy := dy + vDir;
        }
        thisWord := CopyRow(i, halftoneWord, thisWord, job);
      }
      ProgressEnds(job.g, job.rule, job.src, job.halftone, job.before, destForm.bits[..]);
    }

    function SourceBits(): seq<Bits>
      reads this, (if sourceForm == null then {} else {sourceForm.bits})
    {
      if sourceForm == null then [] else sourceForm.bits[..]
    }

    function HalftoneBits(): seq<Bits>
      reads this, (if halftoneForm == null then {} else {halftoneForm.bits})
    {
      if halftoneForm == null then [] else halftoneForm.bits[..]
    }

    // A halftone has a word for each of sixteen rows.
    predicate HalftoneTall() {
      halftoneForm != null ==> halftoneForm.bits.Length >= 16
    }

    predicate AllWellSized()
      reads this
    {
      WellSized(destForm) && (sourceForm != null ==> WellSized(sourceForm))
    }

    // The transfer of a clipped rectangle between forms of the right size.
    method Transfer(ghost g: Geometry, ghost sourceHeight: int)
      requires g == Clipped() && Fits(g) && MasksFor(g) && IsRule(combinationRule) && HalftoneTall()
      requires g.dy + g.h <= destForm.height && destForm.bits.Length == g.destRaster * destForm.height
      requires sourceForm != null ==>
        sourceHeight == sourceForm.height && g.sy + g.h <= sourceHeight &&
        sourceForm.bits.Length == g.sourceRaster * sourceHeight
      modifies this`hDir, this`vDir, this`sx, this`sy, this`dx, this`dy, this`skewMask, this`mask1, this`mask2,
               this`preload, this`sourceIndex, this`destIndex, this`sourceDelta, this`destDelta, destForm.bits
      ensures Outcome(g, combinationRule, old(SourceBits()), old(HalftoneBits()), old(destForm.bits[..]),
        destForm.bits[..])
    {
      ghost var job := Job(g, combinationRule, SourceBits(), HalftoneBits(), destForm.bits[..], sourceHeight,
        destForm.height);
      CheckOverlap(g);
      CalculateOffsets(g);
      ProgressBegins(g, job.rule, job.src, job.halftone, job.before);
      Columns(g);
      CopyLoop(job);
    }

    // The rectangle is not empty: check the forms and transfer.
    method CopyClipped(ghost g: Geometry) returns (ok: bool)
      requires g == Clipped() && Fits(g) && IsRule(combinationRule) && HalftoneTall() && g.dy + g.h <= destForm.height
      requires FormWordCount(destForm.width, destForm.height) == g.destRaster * destForm.height
      requires sourceForm != null ==>
        g.sy + g.h <= sourceForm.height &&
        FormWordCount(sourceForm.width, sourceForm.height) == g.sourceRaster * sourceForm.height
      modifies this`destRaster, this`sourceRaster, this`skew, this`mask1, this`mask2, this`skewMask, this`nWords,
               this`hDir, this`vDir, this`sx, this`sy, this`dx, this`dy,
               this`preload, this`sourceIndex, this`destIndex, this`sourceDelta, this`destDelta, destForm.bits
      ensures ok <==> AllWellSized()
      ensures !ok ==> destForm.bits[..] == old(destForm.bits[..])
      ensures ok ==>
        Outcome(g, combinationRule, old(SourceBits()), old(HalftoneBits()), old(destForm.bits[..]), destForm.bits[..])
      ensures ok && g.exact && Straight(g) ==>
        Right(g, combinationRule, old(SourceBits()), old(HalftoneBits()), old(destForm.bits[..]), destForm.bits[..])
    {
      ghost var src, halftone, before := SourceBits(), HalftoneBits(), destForm.bits[..];
      ComputeMasks(g);
      if sourceForm != null && FormWordCount(sourceForm.width, sourceForm.height) != sourceForm.bits.Length {
        return false;
      }
      if FormWordCount(destForm.width, destForm.height) != destForm.bits.Length {
        return false;
      }
      Transfer(g, if sourceForm == null then 0 else sourceForm.height);
      if g.exact && Straight(g) {
        StraightIsRight(g, combinationRule, src, halftone, before, destForm.bits[..]);
      }
      ok := true;
    }

    // The rectangle that is told to be updated is what is visible, or empty.
    ghost predicate UpdatedAre(r: Request)
      reads this`updatedX, this`updatedY, this`updatedWidth, this`updatedHeight
    {
      if NothingVisible(r) then updatedX == updatedY == updatedWidth == updatedHeight == 0
      else
        forall x, y {:trigger Visible(r, x, y)} ::
          Visible(r, x, y) <==> InBox(x, y, updatedX, updatedY, updatedWidth, updatedHeight)
    }

    // What is visible is told to be updated, whether the forms turn out to be well sized or not.
    method CopyVisible(ghost asked: Request, ghost g: Geometry) returns (ok: bool)
      requires g == Clipped() && Fits(g) && IsRule(combinationRule) && HalftoneTall() && g.dy + g.h <= destForm.height
      requires FormWordCount(destForm.width, destForm.height) == g.destRaster * destForm.height
      requires sourceForm != null ==>
        g.sy + g.h <= sourceForm.height &&
        FormWordCount(sourceForm.width, sourceForm.height) == g.sourceRaster * sourceForm.height
      requires !NothingVisible(asked) &&
        forall x, y {:trigger Visible(asked, x, y)} :: Visible(asked, x, y) <==> InBox(x, y, dx, dy, w, h)
      modifies this, destForm.bits
      ensures ok <==> AllWellSized()
      ensures UpdatedAre(asked)
      ensures !ok ==> destForm.bits[..] == old(destForm.bits[..])
      ensures ok ==>
        Outcome(g, combinationRule, old(SourceBits()), old(HalftoneBits()), old(destForm.bits[..]), destForm.bits[..])
      ensures ok && g.exact && Straight(g) ==>
        Right(g, combinationRule, old(SourceBits()), old(HalftoneBits()), old(destForm.bits[..]), destForm.bits[..])
    {
      updatedX := dx;
      updatedY := dy;
      updatedWidth := w;
      updatedHeight := h;
      ok := CopyClipped(g);
    }

    // copyBits.  When something is to be seen of the request and the forms are well sized, the
    // outcome is that of the clipped geometry g; otherwise nothing is changed.
    method CopyBits() returns (ok: bool, ghost g: Geometry)
      requires IsRule(combinationRule) && HalftoneTall()
      modifies this, destForm.bits
      ensures ok <==> NothingVisible(old(Asked())) || AllWellSized()
      ensures !ok || NothingVisible(old(Asked())) ==> destForm.bits[..] == old(destForm.bits[..])
      ensures UpdatedAre(old(Asked()))
      ensures ok && !NothingVisible(old(Asked())) ==>
        Shows(g, old(Asked())) && g.destRaster == RasterOf(destForm.width) &&
        (g.back <==> sourceForm == destForm && g.dy == g.sy && g.dx > g.sx) &&
        (g.exact <==> ReadInTime(g.sx, g.sy, g.dx, g.dy, g.h) && HalftoneApart()) &&
        Outcome(g, combinationRule, old(SourceBits()), old(HalftoneBits()), old(destForm.bits[..]),
          destForm.bits[..]) &&
        (g.exact && Straight(g) ==>
          Right(g, combinationRule, old(SourceBits()), old(HalftoneBits()), old(destForm.bits[..]), destForm.bits[..]))
    {
      ghost var asked := Asked();
      ClipRange();
      g := Clipped();
      if w > 0 && h > 0 {
        ClippedFits(asked);
        ok := CopyVisible(asked, g);
      } else {
        updatedX := 0;
        updatedY := 0;
        updatedWidth := 0;
        updatedHeight := 0;
        ok := true;
      }
    }

    // The corners of what is left are visible, so that it fits both forms.
    lemma {:induction false} ClippedFits(asked: Request)
      requires w > 0 && h > 0 && sx - dx == asked.sourceX - asked.destX && sy - dy == asked.sourceY - asked.destY
      requires asked.destWidth == destForm.width && asked.destHeight == destForm.height &&
        asked.hasSource == (sourceForm != null)
      requires sourceForm != null ==> asked.sourceWidth == sourceForm.width && asked.sourceHeight == sourceForm.height
      requires forall x, y {:trigger Visible(asked, x, y)} :: Visible(asked, x, y) <==> InBox(x, y, dx, dy, w, h)
      ensures !NothingVisible(asked) && Shows(Clipped(), asked)
      ensures Fits(Clipped()) && dy + h <= destForm.height && 1 <= destForm.width
      ensures sourceForm != null ==> sy + h <= sourceForm.height && 1 <= sourceForm.width
      ensures FormWordCount(destForm.width, destForm.height) == RasterOf(destForm.width) * destForm.height
      ensures sourceForm != null ==>
        FormWordCount(sourceForm.width, sourceForm.height) == RasterOf(sourceForm.width) * sourceForm.height
    {
      assert Visible(asked, dx, dy);
      assert Visible(asked, dx + w - 1, dy + h - 1);
      WordsPerRow(destForm.width, destForm.height);
      if sourceForm != null {
        WordsPerRow(sourceForm.width, sourceForm.height);
      }
    }
  }

  // One pixel of a form to be set in the place to the right of it: rows of one word are copied
  // backwards through exchanged masks, and the pixel stays blank.
  lemma {:induction false} OnePlaceRight(r: Request) returns (g: Geometry)
    requires r == Request(1, 0, 1, 1, 0, 0, 0, 0, 16, 1, 16, 1, true, 16, 1)
    ensures Shows(g, r) && g.exact && g.sourceRaster == g.destRaster == RasterOf(r.destWidth)
    ensures g.back && g.dy == g.sy && g.dx > g.sx && !Straight(g)
    ensures forall after {:trigger Outcome(g, 15, Blank(g), [], Blank(g), after)} ::
      Outcome(g, 15, Blank(g), [], Blank(g), after) ==> !Right(g, 15, Blank(g), [], Blank(g), after)
  {
    g := Geometry(0, 0, 1, 0, 1, 1, true, 1, 1, true, false, true);
    RightExactlyIfStraight(g);
  }

  // A row has the least number of words that hold its pixels, and a form as many such rows as it is high.
  lemma {:induction false} WordsPerRow(width: int, height: int)
    requires 1 <= width
    ensures width <= 16 * RasterOf(width) && forall r :: width <= 16 * r ==> RasterOf(width) <= r
    ensures FormWordCount(width, height) == RasterOf(width) * height
  {
    assert Quotient(width + 15, 16) == RasterOf(width);
  }
}
