/**
 * The multi-scale scan (`Cascade::findObjects`, src/Cascade.php). The window side `scale`
 * starts at minSize and is multiplied by scaleFactor while it does not exceed maxSize; at each
 * scale the window centre runs over a raster from `offset = scale / 2 + 1` to
 * `size - offset` in steps of `max(strideFactor * scale, 1)`, and every window the cascade
 * scores above 0 becomes a Detection. Coordinates and scale are floats, modelled as reals.
 */
module Scanner {
  import opened MathUtil
  import opened Forests
  import opened Classifier
  import opened Detections

  /** A grey-scale image: row-major pixels, `width` per row and `height` rows. */
  datatype Image = Image(pixels: seq<int>, width: int, height: int) {
    predicate Valid() {
      0 <= width && 0 <= height && |pixels| == width * height
    }
  }

  /** The distance of the first window centre from the image border: `scale / 2 + 1`. */
  function Offset(scale: real): real {
    scale / 2.0 + 1.0
  }

  /** `max(strideFactor * scale, 1.0)`: the raster step, never below one pixel. */
  function Step(scale: real, strideFactor: real): (step: real)
    ensures step >= 1.0 && step >= strideFactor * scale
    ensures step == strideFactor * scale || step == 1.0
  {
    if strideFactor * scale > 1.0 then strideFactor * scale else 1.0
  }

  /** A raster loop's measure: a step of at least one pixel lowers it, and it is positive while the loop runs. */
  lemma FloorStep(bound: real, c: real, step: real)
    requires step >= 1.0 && c <= bound
    ensures (bound - c).Floor + 1 >= 1
    ensures (bound - (c + step)).Floor < (bound - c).Floor
  {
  }

  /** The integer window runCascade receives for the float centre (x, y) and side `scale`. */
  function WindowAt(x: real, y: real, scale: real): Window {
    Window(Truncate(x), Truncate(y), Truncate(scale))
  }

  /**
   * Centre coordinate `c` of a window of side `s` keeps a margin of more than s/2 to both ends
   * of [0, size): 2c > s and 2c + s + 2 <= 2 size.
   */
  predicate InMargins(size: int, c: int, s: int) {
    s + 1 <= 2 * c && 2 * c + s + 2 <= 2 * size
  }

  /** A float centre inside [offset, size - offset] truncates to an integer centre in the margins. */
  lemma FloorInMargins(size: int, v: real, scale: real)
    requires scale >= 0.0 && Offset(scale) <= v <= size as real - Offset(scale)
    ensures InMargins(size, Truncate(v), Truncate(scale))
  {
    var c, s := Truncate(v), Truncate(scale);
    assert c as real > v - 1.0 && s as real <= scale;
    assert (2 * c) as real > (s + 0) as real;
  }

  // ---------------------------------------------------------------- every sample lies inside the image

  lemma CodeTimesScale(c: int, s: int)
    requires -128 <= c < 128 && s >= 0
    ensures -128 * s <= c * s <= 127 * s
  {
    MulMono(-128, c, s);
    MulMono(c, 127, s);
  }

  /** createLut's offsets for scale s >= 0 are signed bytes times s, or 0 where nothing was written. */
  lemma {:induction false} LutOfBounded(f: Forest, s: int, m: nat, pos: int, t: int, k: int)
    requires s >= 0
    ensures -128 * s <= LutAt(LutOf(f, s, m), pos, t, k) <= 127 * s
  {
    if m > 0 {
      LutOfBounded(f, s, m - 1, pos, t, k);
      if f.treeDepth > 0 {
        var r := NodePos(f.treeDepth, m - 1, 1);
        WriteNodeAt(LutOf(f, s, m - 1), f, r, s, pos, t, k);
        if pos == r && t == s && 0 <= k < 4 {
          CodeTimesScale(Code(f, r + k), s);
        }
      }
    }
  }

  lemma RowColumn(row: int, col: int, width: int, height: int)
    requires 0 <= row < height && 0 <= col < width
    ensures 0 <= row * width + col < width * height
  {
    MulMono(row, height - 1, width);
    MulMono(0, row, width);
  }

  /** One coordinate: `((c << 8) + off) >> 8` stays in [0, size) for an offset within ±128 s. */
  lemma ShiftedInside(size: int, c: int, s: int, off: int)
    requires s >= 0 && InMargins(size, c, s) && -128 * s <= off <= 127 * s
    ensures 0 <= Shr8(c * 256 + off) < size
  {
  }

  lemma AddressInside(width: int, height: int, w: Window, dy: int, dx: int)
    requires w.s >= 0 && InMargins(width, w.x, w.s) && InMargins(height, w.y, w.s)
    requires -128 * w.s <= dy <= 127 * w.s && -128 * w.s <= dx <= 127 * w.s
    ensures 0 <= SampleIndex(width, w, dy, dx) < width * height
  {
    ShiftedInside(height, w.y, w.s, dy);
    ShiftedInside(width, w.x, w.s, dx);
    RowColumn(Shr8(w.y * 256 + dy), Shr8(w.x * 256 + dx), width, height);
  }

  /**
   * The margin theorem: with createLut's table for the window's own scale, a window whose centre
   * keeps the scan's margins samples only pixels inside the image, at every node of every tree.
   */
  lemma MarginsKeepSamplesInside(f: Forest, img: Image, w: Window)
    requires img.Valid() && w.s >= 0 && InMargins(img.width, w.x, w.s) && InMargins(img.height, w.y, w.s)
    ensures SamplesInRange(f, Sampler(img.pixels, img.width, LutOf(f, w.s, f.numberOfTrees)), w)
  {
    var sm := Sampler(img.pixels, img.width, LutOf(f, w.s, f.numberOfTrees));
    forall i: nat, idx: nat | i < f.numberOfTrees && 1 <= idx < Pow2(f.treeDepth)
      ensures NodeOk(f, sm, w, i, idx)
    {
      var pos := NodePos(f.treeDepth, i, idx);
      LutOfBounded(f, w.s, f.numberOfTrees, pos, w.s, 0);
      LutOfBounded(f, w.s, f.numberOfTrees, pos, w.s, 1);
      LutOfBounded(f, w.s, f.numberOfTrees, pos, w.s, 2);
      LutOfBounded(f, w.s, f.numberOfTrees, pos, w.s, 3);
      AddressInside(img.width, img.height, w, LutAt(sm.lut, pos, w.s, 0), LutAt(sm.lut, pos, w.s, 1));
      AddressInside(img.width, img.height, w, LutAt(sm.lut, pos, w.s, 2), LutAt(sm.lut, pos, w.s, 3));
    }
  }

  /** The windows findObjects scores are well inside the image, so the cascade's samples are too. */
  lemma ScannedWindowInside(f: Forest, img: Image, x: real, y: real, scale: real)
    requires img.Valid() && scale >= 1.0
    requires Offset(scale) <= x <= img.width as real - Offset(scale)
    requires Offset(scale) <= y <= img.height as real - Offset(scale)
    ensures InMargins(img.width, WindowAt(x, y, scale).x, WindowAt(x, y, scale).s)
    ensures InMargins(img.height, WindowAt(x, y, scale).y, WindowAt(x, y, scale).s)
    ensures SamplesInRange(f, Sampler(img.pixels, img.width, LutOf(f, Truncate(scale), f.numberOfTrees)), WindowAt(x, y, scale))
  {
    FloorInMargins(img.width, x, scale);
    FloorInMargins(img.height, y, scale);
    MarginsKeepSamplesInside(f, img, WindowAt(x, y, scale));
  }

  // ---------------------------------------------------------------- what the scan emits

  /** The cascade's score for the window at float centre (x, y) and side `scale`. */
  function ScoreAt(f: Forest, img: Image, x: real, y: real, scale: real): real
    requires f.Valid() && img.Valid() && scale >= 1.0
    requires Offset(scale) <= x <= img.width as real - Offset(scale)
    requires Offset(scale) <= y <= img.height as real - Offset(scale)
  {
    ScannedWindowInside(f, img, x, y, scale);
    CascadeScore(f, Sampler(img.pixels, img.width, LutOf(f, Truncate(scale), f.numberOfTrees)), WindowAt(x, y, scale))
  }

  /** The window at float centre (x, y) becomes a detection when its score is positive. */
  function WindowDetection(f: Forest, img: Image, x: real, y: real, scale: real): seq<Detection>
    requires f.Valid() && img.Valid() && scale >= 1.0
    requires Offset(scale) <= x <= img.width as real - Offset(scale)
    requires Offset(scale) <= y <= img.height as real - Offset(scale)
  {
    var q := ScoreAt(f, img, x, y, scale);
    if q > 0.0 then [NewDetection(x, y, scale, q)] else []
  }

  /**
   * The x loop of findObjects from centre x on: `acc` followed by the detections of windows
   * x, x + step, ... up to width - offset, in that order.
   */
  function RowScan(f: Forest, img: Image, scale: real, y: real, x: real, step: real, acc: seq<Detection>): seq<Detection>
    requires f.Valid() && img.Valid() && scale >= 1.0 && step >= 1.0
    requires Offset(scale) <= y <= img.height as real - Offset(scale) && Offset(scale) <= x
    decreases (img.width as real - Offset(scale) - x).Floor + 1
  {
    if x <= img.width as real - Offset(scale) then
      RowScan(f, img, scale, y, x + step, step, acc + WindowDetection(f, img, x, y, scale))
    else acc
  }

  /** The y loop of findObjects at one scale from row y on: `acc` followed by each row in turn. */
  function GridScan(f: Forest, img: Image, scale: real, y: real, step: real, acc: seq<Detection>): seq<Detection>
    requires f.Valid() && img.Valid() && scale >= 1.0 && step >= 1.0 && Offset(scale) <= y
    decreases (img.height as real - Offset(scale) - y).Floor + 1
  {
    if y <= img.height as real - Offset(scale) then
      GridScan(f, img, scale, y + step, step, RowScan(f, img, scale, y, Offset(scale), step, acc))
    else acc
  }

  /** How many more growths of at least scaleFactor - 1 fit below maxSize: the scale loop's measure. */
  function ScaleBudget(maxSize: real, scale: real, scaleFactor: real): int
    requires scaleFactor > 1.0
  {
    ((maxSize - scale) / (scaleFactor - 1.0)).Floor + 1
  }

  /** Each rescaling grows the side by at least scaleFactor - 1, so the scale loop ends. */
  lemma ScaleGrows(maxSize: real, scale: real, scaleFactor: real)
    requires scale >= 1.0 && scaleFactor > 1.0 && scale <= maxSize
    ensures scale * scaleFactor >= scale + (scaleFactor - 1.0)
    ensures ScaleBudget(maxSize, scale, scaleFactor) >= 1
    ensures ScaleBudget(maxSize, scale * scaleFactor, scaleFactor) < ScaleBudget(maxSize, scale, scaleFactor)
  {
    var g := scaleFactor - 1.0;
    assert scale * scaleFactor - scale == scale * g;
    MulMonoReal(1.0, scale, g);
    var a := (maxSize - scale) / g;
    var b := (maxSize - scale * scaleFactor) / g;
    assert a * g == maxSize - scale;
    assert b * g == maxSize - scale * scaleFactor;
    assert a * g - b * g == scale * g;
    assert (a - b) * g == a * g - b * g;
    assert (a - b) * g >= 1.0 * g;
    DivideMono(a - b, g);
    NonNegativeQuotient(maxSize - scale, g);
  }

  lemma NonNegativeQuotient(v: real, g: real)
    requires v >= 0.0 && g > 0.0
    ensures v / g >= 0.0
  {
  }

  lemma MulMonoReal(a: real, b: real, c: real)
    requires a <= b && c >= 0.0
    ensures a * c <= b * c
  {
  }

  lemma DivideMono(v: real, g: real)
    requires g > 0.0 && v * g >= 1.0 * g
    ensures v >= 1.0
  {
  }

  /** The scale loop of findObjects from side `scale` on: `acc` followed by each scale's grid in turn. */
  function ScaleScan(f: Forest, img: Image, scale: real, maxSize: int, scaleFactor: real, strideFactor: real,
                     acc: seq<Detection>): seq<Detection>
    requires f.Valid() && img.Valid() && scale >= 1.0 && scaleFactor > 1.0
    decreases ScaleBudget(maxSize as real, scale, scaleFactor)
  {
    if scale <= maxSize as real then
      ScaleGrows(maxSize as real, scale, scaleFactor);
      ScaleScan(f, img, scale * scaleFactor, maxSize, scaleFactor, strideFactor,
                GridScan(f, img, scale, Offset(scale), Step(scale, strideFactor), acc))
    else acc
  }

  /** What findObjects returns. */
  function Detected(f: Forest, img: Image, minSize: int, maxSize: int, scaleFactor: real, strideFactor: real): seq<Detection>
    requires f.Valid() && img.Valid()
    requires minSize > maxSize || (minSize >= 1 && scaleFactor > 1.0)
  {
    if minSize > maxSize then [] else ScaleScan(f, img, minSize as real, maxSize, scaleFactor, strideFactor, [])
  }

  /** The x loop of findObjects: scores the windows of row y and appends the accepted ones. */
  method ScanRow(f: Forest, image: seq<int>, width: int, height: int, scale: real, y: real, step: real,
                 lut: Lut, detections: seq<Detection>) returns (result: seq<Detection>)
    requires f.Valid() && Image(image, width, height).Valid() && scale >= 1.0 && step >= 1.0
    requires Offset(scale) <= y <= height as real - Offset(scale)
    requires lut == LutOf(f, Truncate(scale), f.numberOfTrees)
    ensures result == RowScan(f, Image(image, width, height), scale, y, Offset(scale), step, detections)
  {
    ghost var img := Image(image, width, height);
    var offset := scale / 2.0 + 1.0;
    var xOffset := width as real - offset;
    result := detections;
    var x := offset;
    while x <= xOffset
      invariant offset <= x
      invariant RowScan(f, img, scale, y, x, step, result) == RowScan(f, img, scale, y, offset, step, detections)
      decreases (xOffset - x).Floor + 1
    {
      result := ScanWindow(f, image, width, height, scale, x, y, lut, result);
      FloorStep(xOffset, x, step);
      x := x + step;
    }
  }

  /** The body of the x loop: scores one window and appends it when the score is positive. */
  method ScanWindow(f: Forest, image: seq<int>, width: int, height: int, scale: real, x: real, y: real,
                    lut: Lut, detections: seq<Detection>) returns (result: seq<Detection>)
    requires f.Valid() && Image(image, width, height).Valid() && scale >= 1.0
    requires Offset(scale) <= x <= width as real - Offset(scale)
    requires Offset(scale) <= y <= height as real - Offset(scale)
    requires lut == LutOf(f, Truncate(scale), f.numberOfTrees)
    ensures result == detections + WindowDetection(f, Image(image, width, height), x, y, scale)
  {
    ScannedWindowInside(f, Image(image, width, height), x, y, scale);
    var q, trees := RunCascade(f, Truncate(x), Truncate(y), Truncate(scale), image, width, lut);
    result := detections;
    if q > 0.0 {
      result := result + [NewDetection(x, y, scale, q)];
    }
  }

  /** The y loop of findObjects at one scale, with the table built for that scale. */
  method ScanGrid(f: Forest, image: seq<int>, width: int, height: int, scale: real, step: real,
                  lut: Lut, detections: seq<Detection>) returns (result: seq<Detection>)
    requires f.Valid() && Image(image, width, height).Valid() && scale >= 1.0 && step >= 1.0
    requires lut == LutOf(f, Truncate(scale), f.numberOfTrees)
    ensures result == GridScan(f, Image(image, width, height), scale, Offset(scale), step, detections)
  {
    ghost var img := Image(image, width, height);
    var offset := scale / 2.0 + 1.0;
    var yOffset := height as real - offset;
    result := detections;
    var y := offset;
    while y <= yOffset
      invariant offset <= y
      invariant GridScan(f, img, scale, y, step, result) == GridScan(f, img, scale, offset, step, detections)
      decreases (yOffset - y).Floor + 1
    {
      result := ScanRow(f, image, width, height, scale, y, step, lut, result);
      FloorStep(yOffset, y, step);
      y := y + step;
    }
  }

  /** The body of findObjects' scale loop: the step, the table for this scale and the grid scan. */
  method ScanScale(f: Forest, image: seq<int>, width: int, height: int, scale: real, strideFactor: real,
                   detections: seq<Detection>) returns (result: seq<Detection>)
    requires f.Valid() && Image(image, width, height).Valid() && scale >= 1.0
    ensures result == GridScan(f, Image(image, width, height), scale, Offset(scale), Step(scale, strideFactor), detections)
  {
    var step := Step(scale, strideFactor);
    var lut := CreateLut(f, Truncate(scale));
    result := ScanGrid(f, image, width, height, scale, step, lut, detections);
  }

  /**
   * `findObjects($image, $width, $height, $minSize, $maxSize, $scaleFactor, $strideFactor)`.
   * The precondition is a sufficient condition for the scale loop to end; without it the loop
   * need not end (minSize = 0, or 1 <= minSize <= maxSize with 0 <= scaleFactor <= 1).
   */
  method FindObjects(f: Forest, image: seq<int>, width: int, height: int, minSize: int, maxSize: int,
                     scaleFactor: real, strideFactor: real) returns (detections: seq<Detection>)
    requires f.Valid() && Image(image, width, height).Valid()
    requires minSize > maxSize || (minSize >= 1 && scaleFactor > 1.0)
    ensures detections == Detected(f, Image(image, width, height), minSize, maxSize, scaleFactor, strideFactor)
  {
    ghost var img := Image(image, width, height);
    var scale := minSize as real;
    detections := [];

    while scale <= maxSize as real
      invariant minSize > maxSize ==> scale == minSize as real && detections == []
      invariant minSize <= maxSize ==> scale >= 1.0
      invariant minSize <= maxSize ==>
        ScaleScan(f, img, scale, maxSize, scaleFactor, strideFactor, detections) == Detected(f, img, minSize, maxSize, scaleFactor, strideFactor)
      decreases if scaleFactor > 1.0 && scale <= maxSize as real then ScaleBudget(maxSize as real, scale, scaleFactor) else 0
    {
      ScaleGrows(maxSize as real, scale, scaleFactor);
      detections := ScanScale(f, image, width, height, scale, strideFactor, detections);
      scale := scale * scaleFactor;
    }
  }

  // ---------------------------------------------------------------- soundness of the scan

  /**
   * A detection the scan can emit: a side between lo and hi, a centre within the margins, and a
   * positive score that is exactly the cascade's score of that window with createLut's table.
   */
  predicate Accepted(f: Forest, img: Image, lo: int, hi: int, d: Detection)
    requires f.Valid() && img.Valid()
  {
    0 <= lo <= d.scale <= hi &&
    InMargins(img.width, d.x, d.scale) && InMargins(img.height, d.y, d.scale) &&
    d.score > 0.0 &&
    (MarginsKeepSamplesInside(f, img, Window(d.x, d.y, d.scale));
     d.score == CascadeScore(f, Sampler(img.pixels, img.width, LutOf(f, d.scale, f.numberOfTrees)), Window(d.x, d.y, d.scale)))
  }

  /** A window scanned at a side between lo and hi yields only an accepted detection. */
  lemma WindowSound(f: Forest, img: Image, x: real, y: real, scale: real, lo: int, hi: int)
    requires f.Valid() && img.Valid() && scale >= 1.0
    requires Offset(scale) <= x <= img.width as real - Offset(scale)
    requires Offset(scale) <= y <= img.height as real - Offset(scale)
    requires 0 <= lo <= Truncate(scale) <= hi
    ensures forall d :: d in WindowDetection(f, img, x, y, scale) ==> Accepted(f, img, lo, hi, d)
  {
    ScannedWindowInside(f, img, x, y, scale);
  }

  /** Every detection a row adds to `acc` is accepted. */
  lemma {:induction false} RowSound(f: Forest, img: Image, scale: real, y: real, x: real, step: real,
                                    acc: seq<Detection>, lo: int, hi: int)
    requires f.Valid() && img.Valid() && scale >= 1.0 && step >= 1.0
    requires Offset(scale) <= y <= img.height as real - Offset(scale) && Offset(scale) <= x
    requires 0 <= lo <= Truncate(scale) <= hi
    ensures forall d :: d in RowScan(f, img, scale, y, x, step, acc) ==> d in acc || Accepted(f, img, lo, hi, d)
    decreases (img.width as real - Offset(scale) - x).Floor + 1
  {
    if x <= img.width as real - Offset(scale) {
      WindowSound(f, img, x, y, scale, lo, hi);
      RowSound(f, img, scale, y, x + step, step, acc + WindowDetection(f, img, x, y, scale), lo, hi);
    }
  }

  /** Every detection a grid adds to `acc` is accepted. */
  lemma {:induction false} GridSound(f: Forest, img: Image, scale: real, y: real, step: real,
                                     acc: seq<Detection>, lo: int, hi: int)
    requires f.Valid() && img.Valid() && scale >= 1.0 && step >= 1.0 && Offset(scale) <= y
    requires 0 <= lo <= Truncate(scale) <= hi
    ensures forall d :: d in GridScan(f, img, scale, y, step, acc) ==> d in acc || Accepted(f, img, lo, hi, d)
    decreases (img.height as real - Offset(scale) - y).Floor + 1
  {
    if y <= img.height as real - Offset(scale) {
      var acc' := RowScan(f, img, scale, y, Offset(scale), step, acc);
      RowSound(f, img, scale, y, Offset(scale), step, acc, lo, hi);
      GridSound(f, img, scale, y + step, step, acc', lo, hi);
    }
  }

  /** Every detection the scales from `scale` on add to `acc` is accepted. */
  lemma {:induction false} ScalesSound(f: Forest, img: Image, scale: real, maxSize: int, scaleFactor: real, strideFactor: real,
                                       acc: seq<Detection>, minSize: int)
    requires f.Valid() && img.Valid() && scale >= 1.0 && scaleFactor > 1.0
    requires 0 <= minSize && minSize as real <= scale
    ensures forall d :: d in ScaleScan(f, img, scale, maxSize, scaleFactor, strideFactor, acc) ==>
      d in acc || Accepted(f, img, minSize, maxSize, d)
    decreases ScaleBudget(maxSize as real, scale, scaleFactor)
  {
    if scale <= maxSize as real {
      ScaleGrows(maxSize as real, scale, scaleFactor);
      var acc' := GridScan(f, img, scale, Offset(scale), Step(scale, strideFactor), acc);
      GridSound(f, img, scale, Offset(scale), Step(scale, strideFactor), acc, minSize, maxSize);
      ScalesSound(f, img, scale * scaleFactor, maxSize, scaleFactor, strideFactor, acc', minSize);
    }
  }

  /** A row only appends: the detections before it stay, in order, at the front. */
  lemma {:induction false} RowKeeps(f: Forest, img: Image, scale: real, y: real, x: real, step: real, acc: seq<Detection>)
    requires f.Valid() && img.Valid() && scale >= 1.0 && step >= 1.0
    requires Offset(scale) <= y <= img.height as real - Offset(scale) && Offset(scale) <= x
    ensures acc <= RowScan(f, img, scale, y, x, step, acc)
    decreases (img.width as real - Offset(scale) - x).Floor + 1
  {
    if x <= img.width as real - Offset(scale) {
      var acc' := acc + WindowDetection(f, img, x, y, scale);
      RowKeeps(f, img, scale, y, x + step, step, acc');
      assert acc <= acc';
    }
  }

  /** A grid only appends. */
  lemma {:induction false} GridKeeps(f: Forest, img: Image, scale: real, y: real, step: real, acc: seq<Detection>)
    requires f.Valid() && img.Valid() && scale >= 1.0 && step >= 1.0 && Offset(scale) <= y
    ensures acc <= GridScan(f, img, scale, y, step, acc)
    decreases (img.height as real - Offset(scale) - y).Floor + 1
  {
    if y <= img.height as real - Offset(scale) {
      var acc' := RowScan(f, img, scale, y, Offset(scale), step, acc);
      RowKeeps(f, img, scale, y, Offset(scale), step, acc);
      GridKeeps(f, img, scale, y + step, step, acc');
    }
  }

  /** The remaining scales only append. */
  lemma {:induction false} ScalesKeep(f: Forest, img: Image, scale: real, maxSize: int, scaleFactor: real, strideFactor: real,
                                      acc: seq<Detection>)
    requires f.Valid() && img.Valid() && scale >= 1.0 && scaleFactor > 1.0
    ensures acc <= ScaleScan(f, img, scale, maxSize, scaleFactor, strideFactor, acc)
    decreases ScaleBudget(maxSize as real, scale, scaleFactor)
  {
    if scale <= maxSize as real {
      ScaleGrows(maxSize as real, scale, scaleFactor);
      var acc' := GridScan(f, img, scale, Offset(scale), Step(scale, strideFactor), acc);
      GridKeeps(f, img, scale, Offset(scale), Step(scale, strideFactor), acc);
      ScalesKeep(f, img, scale * scaleFactor, maxSize, scaleFactor, strideFactor, acc');
    }
  }

  /**
   * Every detection findObjects returns has a side in [minSize, maxSize], a centre inside the
   * margins, and a positive score equal to the cascade's score for that very window; there are
   * none when minSize > maxSize.
   */
  lemma FindObjectsSound(f: Forest, img: Image, minSize: int, maxSize: int, scaleFactor: real, strideFactor: real)
    requires f.Valid() && img.Valid()
    requires minSize > maxSize || (minSize >= 1 && scaleFactor > 1.0)
    ensures forall d :: d in Detected(f, img, minSize, maxSize, scaleFactor, strideFactor) ==> Accepted(f, img, minSize, maxSize, d)
    ensures minSize > maxSize ==> Detected(f, img, minSize, maxSize, scaleFactor, strideFactor) == []
  {
    if minSize <= maxSize {
      ScalesSound(f, img, minSize as real, maxSize, scaleFactor, strideFactor, [], minSize);
    }
  }
}
