/** Growing a picture by margins, and putting the original back into what the provider returned. */
module ExpandGeometry {
  import opened Arithmetic
  import opened Canvas

  /** Percentages of the height (top, bottom) and of the width (left, right). */
  datatype Margins = Margins(top: int, bottom: int, left: int, right: int)

  const MAX_CANVAS_PIXELS: int := 16_000_000

  predicate IsPercentage(n: int) {
    0 <= n <= 100
  }

  predicate IsValid(m: Margins) {
    && IsPercentage(m.top) && IsPercentage(m.bottom) && IsPercentage(m.left) && IsPercentage(m.right)
    && m.top + m.bottom + m.left + m.right > 0
  }

  function PercentPixels(size: int, percent: int): int {
    if percent <= 0 || size <= 0 then 0 else Nearest(size * percent, 100)
  }

  lemma PercentPixelsBounds(size: int, percent: int)
    requires size > 0
    ensures PercentPixels(size, percent) >= 0
    ensures percent <= 100 ==> PercentPixels(size, percent) <= size
    ensures PercentPixels(size, 100) == size
  {
    NearestOfMultiple(size, 100);
    if 0 < percent {
      MultiplyMonotone(size, 0, percent);
      NearestOfMultiple(0, 100);
      NearestMonotone(0, size * percent, 100);
      if percent <= 100 {
        MultiplyMonotone(size, percent, 100);
        NearestMonotone(size * percent, size * 100, 100);
      }
    }
  }

  // ----- One axis -----

  /** An interval of pixels, without its upper end. */
  datatype Span = Span(low: int, high: int)

  function Grown(size: int, before: int, after: int): int {
    size + PercentPixels(size, before) + PercentPixels(size, after)
  }

  /** Where the original lies on the grown axis. */
  function SourceSpan(size: int, before: int): Span {
    Span(PercentPixels(size, before), PercentPixels(size, before) + size)
  }

  lemma GrownBounds(size: int, before: int, after: int)
    requires size > 0
    ensures 0 <= SourceSpan(size, before).low && SourceSpan(size, before).high <= Grown(size, before, after)
    ensures before <= 100 && after <= 100 ==> Grown(size, before, after) <= 3 * size
  {
    PercentPixelsBounds(size, before);
    PercentPixelsBounds(size, after);
  }

  /** The margins are the percentages of the size, rounded to the nearest pixel, and the original keeps its size. */
  lemma MarginsAreNearest(size: int, before: int, after: int)
    requires size > 0 && before >= 0 && after >= 0
    ensures var s, g := SourceSpan(size, before), Grown(size, before, after);
            && -100 < 2 * (100 * s.low - size * before) <= 100
            && s.high - s.low == size
            && -100 < 2 * (100 * (g - s.high) - size * after) <= 100
  {
    NearestIff(size * before, 100, Nearest(size * before, 100));
    NearestIff(size * after, 100, Nearest(size * after, 100));
  }

  /** The same interval on an axis of `result` pixels. */
  function PreserveSpan(size: int, before: int, after: int, result: int): Span
    requires size > 0
  {
    GrownBounds(size, before, after);
    var source, grown := SourceSpan(size, before), Grown(size, before, after);
    Span(Nearest(source.low * result, grown), Nearest(source.high * result, grown))
  }

  /** It never leaves the result and never turns around, and on an unchanged axis it is the source itself. */
  lemma PreserveSpanFits(size: int, before: int, after: int, result: int)
    requires size > 0 && result > 0
    ensures var s := PreserveSpan(size, before, after, result); 0 <= s.low <= s.high <= result
    ensures result == Grown(size, before, after) ==>
              PreserveSpan(size, before, after, result) == SourceSpan(size, before)
  {
    GrownBounds(size, before, after);
    var source, grown := SourceSpan(size, before), Grown(size, before, after);
    MultiplyMonotone(result, 0, source.low);
    MultiplyMonotone(result, source.low, source.high);
    MultiplyMonotone(result, source.high, grown);
    NearestMonotone(0, source.low * result, grown);
    NearestMonotone(source.low * result, source.high * result, grown);
    NearestMonotone(source.high * result, grown * result, grown);
    NearestOfMultiple(0, grown);
    NearestOfMultiple(result, grown);
    assert grown * result == result * grown;
    NearestOfMultiple(source.low, grown);
    NearestOfMultiple(source.high, grown);
  }

  /** On an axis of any size both ends are where they were, in proportion, to the nearest pixel. */
  lemma SpanIsProportional(size: int, before: int, after: int, result: int)
    requires size > 0
    ensures var s, source := PreserveSpan(size, before, after, result), SourceSpan(size, before);
            var g := Grown(size, before, after);
            && -g < 2 * (s.low * g - source.low * result) <= g
            && -g < 2 * (s.high * g - source.high * result) <= g
  {
    GrownBounds(size, before, after);
    var source, g := SourceSpan(size, before), Grown(size, before, after);
    NearestIff(source.low * result, g, Nearest(source.low * result, g));
    NearestIff(source.high * result, g, Nearest(source.high * result, g));
  }

  /** Three pixels are enough for the original never to vanish. */
  lemma ThreePixelsAreEnough(size: int, before: int, after: int, result: int)
    requires size > 0 && before <= 100 && after <= 100 && result >= 3
    ensures var s := PreserveSpan(size, before, after, result); s.low < s.high
  {
    GrownBounds(size, before, after);
    var source, grown := SourceSpan(size, before), Grown(size, before, after);
    Distribute(source.low, size, result);
    MultiplyMonotone(size, 3, result);
    assert size * result == result * size;
    NearestApart(source.low * result, source.high * result, grown);
  }

  /** With fewer pixels it can: one pixel loses a picture doubled to one side, two lose one tripled. */
  lemma TwoPixelsAreNot(size: int)
    requires size > 0
    ensures var s := PreserveSpan(size, 100, 0, 1); s.low == s.high
    ensures var s := PreserveSpan(size, 100, 100, 2); s.low == s.high
  {
    PercentPixelsBounds(size, 100);
    GrownBounds(size, 100, 0);
    GrownBounds(size, 100, 100);
    NearestIff(size * 1, 2 * size, 1);
    NearestIff(2 * size * 1, 2 * size, 1);
    NearestIff(size * 2, 3 * size, 1);
    NearestIff(2 * size * 2, 3 * size, 1);
  }

  ghost predicate NeverVanishes(result: int) {
    forall size: int, before: int, after: int ::
      size > 0 && IsPercentage(before) && IsPercentage(after) ==>
        PreserveSpan(size, before, after, result).low < PreserveSpan(size, before, after, result).high
  }

  /** Over all pictures and valid margins, the original survives on an axis exactly from three pixels on. */
  lemma NeverVanishesIff(result: int)
    requires result > 0
    ensures NeverVanishes(result) <==> result >= 3
  {
    TwoPixelsAreNot(1);
    if result >= 3 {
      forall size: int, before: int, after: int | size > 0 && IsPercentage(before) && IsPercentage(after)
        ensures PreserveSpan(size, before, after, result).low < PreserveSpan(size, before, after, result).high
      {
        ThreePixelsAreEnough(size, before, after, result);
      }
    } else if result == 1 {
      assert IsPercentage(100) && IsPercentage(0) && PreserveSpan(1, 100, 0, 1).low == PreserveSpan(1, 100, 0, 1).high;
    } else {
      assert IsPercentage(100) && PreserveSpan(1, 100, 100, 2).low == PreserveSpan(1, 100, 100, 2).high;
    }
  }

  /** The margins, in pixels, with which an axis of one or two pixels loses the original. */
  predicate Vanishes(size: int, before: int, after: int, result: int) {
    var a, b := PercentPixels(size, before), PercentPixels(size, after);
    (result == 1 && a == size && b == 0) || (result == 2 && size + b <= 3 * a && size + a < 3 * b)
  }

  lemma SmallNearest(p: int, m: int)
    requires m > 0 && 0 <= p <= 2 * m
    ensures Nearest(p, m) == if 2 * p < m then 0 else if 2 * p < 3 * m then 1 else 2
  {
    NearestIff(p, m, 0);
    NearestIff(p, m, 1);
    NearestIff(p, m, 2);
  }

  /** For any picture, valid margins and any result: the interval is empty if and only if it is that case. */
  lemma VanishesIff(size: int, before: int, after: int, result: int)
    requires size > 0 && IsPercentage(before) && IsPercentage(after) && result > 0
    ensures var s := PreserveSpan(size, before, after, result);
            s.low == s.high <==> Vanishes(size, before, after, result)
  {
    if result >= 3 {
      ThreePixelsAreEnough(size, before, after, result);
    } else {
      PercentPixelsBounds(size, before);
      PercentPixelsBounds(size, after);
      GrownBounds(size, before, after);
      var source, grown := SourceSpan(size, before), Grown(size, before, after);
      if result == 1 {
        SmallNearest(source.low, grown);
        SmallNearest(source.high, grown);
        assert source.low * 1 == source.low && source.high * 1 == source.high;
      } else {
        SmallNearest(2 * source.low, grown);
        SmallNearest(2 * source.high, grown);
        assert source.low * 2 == 2 * source.low && source.high * 2 == 2 * source.high;
      }
    }
  }

  // ----- Rectangles -----

  datatype Rect = Rect(x: Span, y: Span)

  predicate Inside(r: Rect, x: int, y: int) {
    r.x.low <= x < r.x.high && r.y.low <= y < r.y.high
  }

  predicate IsEmpty(r: Rect) {
    r.x.low >= r.x.high || r.y.low >= r.y.high
  }

  const NO_RECT := Rect(Span(0, 0), Span(0, 0))

  function Ordered(a: int, b: int): Span {
    if a <= b then Span(a, b) else Span(b, a)
  }

  function Overlap(a: Span, b: Span): Span {
    Span(if a.low < b.low then b.low else a.low, if a.high > b.high then b.high else a.high)
  }

  function Intersect(r: Rect, s: Rect): Rect {
    var o := Rect(Overlap(r.x, s.x), Overlap(r.y, s.y));
    if IsEmpty(o) then NO_RECT else o
  }

  function SourceRect(width: int, height: int, m: Margins): Rect {
    Rect(SourceSpan(width, m.left), SourceSpan(height, m.top))
  }

  /** The rectangle of the result that the original is scaled back into. */
  function PreserveRect(width: int, height: int, m: Margins, resultWidth: int, resultHeight: int): Rect
    requires width > 0 && height > 0
  {
    var x, y := PreserveSpan(width, m.left, m.right, resultWidth), PreserveSpan(height, m.top, m.bottom, resultHeight);
    Intersect(Rect(Ordered(x.low, x.high), Ordered(y.low, y.high)), Rect(Span(0, resultWidth), Span(0, resultHeight)))
  }

  /**
   For valid margins and a result at least three pixels wide and high the rectangle is not empty and
   cutting it to the result changes nothing; on a result of the size asked for it is the source rectangle.
   */
  lemma PreserveRectIsRight(width: int, height: int, m: Margins, resultWidth: int, resultHeight: int)
    requires width > 0 && height > 0 && IsValid(m) && resultWidth >= 3 && resultHeight >= 3
    ensures var r := PreserveRect(width, height, m, resultWidth, resultHeight);
            && !IsEmpty(r)
            && r == Rect(PreserveSpan(width, m.left, m.right, resultWidth),
                         PreserveSpan(height, m.top, m.bottom, resultHeight))
            && 0 <= r.x.low && r.x.high <= resultWidth && 0 <= r.y.low && r.y.high <= resultHeight
  {
    PreserveSpanFits(width, m.left, m.right, resultWidth);
    PreserveSpanFits(height, m.top, m.bottom, resultHeight);
    ThreePixelsAreEnough(width, m.left, m.right, resultWidth);
    ThreePixelsAreEnough(height, m.top, m.bottom, resultHeight);
  }

  /** For any result size there is nothing to preserve if and only if one of the axes vanishes. */
  lemma PreserveRectIsEmptyIff(width: int, height: int, m: Margins, resultWidth: int, resultHeight: int)
    requires width > 0 && height > 0 && IsValid(m) && resultWidth > 0 && resultHeight > 0
    ensures IsEmpty(PreserveRect(width, height, m, resultWidth, resultHeight)) <==>
            Vanishes(width, m.left, m.right, resultWidth) || Vanishes(height, m.top, m.bottom, resultHeight)
  {
    PreserveSpanFits(width, m.left, m.right, resultWidth);
    PreserveSpanFits(height, m.top, m.bottom, resultHeight);
    VanishesIff(width, m.left, m.right, resultWidth);
    VanishesIff(height, m.top, m.bottom, resultHeight);
  }

  /** The margins of the canvas: left and right of the width, top and bottom of the height, to the nearest pixel. */
  lemma CanvasHasItsMargins(width: int, height: int, m: Margins)
    requires width > 0 && height > 0 && IsValid(m)
    ensures var r, w, h := SourceRect(width, height, m), Grown(width, m.left, m.right), Grown(height, m.top, m.bottom);
            && r.x.high - r.x.low == width && r.y.high - r.y.low == height
            && -100 < 2 * (100 * r.x.low - width * m.left) <= 100
            && -100 < 2 * (100 * (w - r.x.high) - width * m.right) <= 100
            && -100 < 2 * (100 * r.y.low - height * m.top) <= 100
            && -100 < 2 * (100 * (h - r.y.high) - height * m.bottom) <= 100
  {
    MarginsAreNearest(width, m.left, m.right);
    MarginsAreNearest(height, m.top, m.bottom);
  }

  /** In a result of any size the original covers the part it had on the canvas, each edge to the nearest pixel. */
  lemma PreserveRectIsProportional(width: int, height: int, m: Margins, resultWidth: int, resultHeight: int)
    requires width > 0 && height > 0 && resultWidth > 0 && resultHeight > 0
    requires !IsEmpty(PreserveRect(width, height, m, resultWidth, resultHeight))
    ensures var r, s := PreserveRect(width, height, m, resultWidth, resultHeight), SourceRect(width, height, m);
            var w, h := Grown(width, m.left, m.right), Grown(height, m.top, m.bottom);
            && -w < 2 * (r.x.low * w - s.x.low * resultWidth) <= w
            && -w < 2 * (r.x.high * w - s.x.high * resultWidth) <= w
            && -h < 2 * (r.y.low * h - s.y.low * resultHeight) <= h
            && -h < 2 * (r.y.high * h - s.y.high * resultHeight) <= h
  {
    PreserveSpanFits(width, m.left, m.right, resultWidth);
    PreserveSpanFits(height, m.top, m.bottom, resultHeight);
    SpanIsProportional(width, m.left, m.right, resultWidth);
    SpanIsProportional(height, m.top, m.bottom, resultHeight);
  }

  lemma UnchangedSizePreservesSource(width: int, height: int, m: Margins)
    requires width > 0 && height > 0
    ensures var w, h := Grown(width, m.left, m.right), Grown(height, m.top, m.bottom);
            PreserveRect(width, height, m, w, h) == SourceRect(width, height, m)
  {
    GrownBounds(width, m.left, m.right);
    GrownBounds(height, m.top, m.bottom);
    PreserveSpanFits(width, m.left, m.right, Grown(width, m.left, m.right));
    PreserveSpanFits(height, m.top, m.bottom, Grown(height, m.top, m.bottom));
  }

  // ----- Drawing -----

  /** The pixel of an axis of `size` pixels that is shown at `k` of `shown` pixels. */
  function Sampled(k: int, size: int, shown: int): int
    requires shown > 0
  {
    k * size / shown
  }

  lemma SampledInRange(k: int, size: int, shown: int)
    requires size > 0 && 0 <= k < shown
    ensures 0 <= Sampled(k, size, shown) < size
    ensures size == shown ==> Sampled(k, size, shown) == k
  {
    var n := k * size;
    var q, r := n / shown, n % shown;
    assert n == q * shown + r;
    MultiplyMonotone(size, 0, k);
    MultiplyMonotone(size, k + 1, shown);
    MultiplyMonotone(size, k, k);
    if q < 0 { MultiplyMonotone(shown, q + 1, 0); MultiplyMonotone(shown, q, q); }
    if q >= size { MultiplyMonotone(shown, size, q); }
    if size == shown { DivideExactly(n, shown, k, 0); }
  }

  /** The sample is the pixel of the source whose stretch over the axis covers `k`. */
  lemma SampledCovers(k: int, size: int, shown: int, q: int)
    requires size > 0 && 0 <= k < shown
    ensures q == Sampled(k, size, shown) <==> q * shown <= k * size < (q + 1) * shown
  {
    var n := k * size;
    var p := n / shown;
    assert n == p * shown + n % shown;
    MultiplyMonotone(shown, p, p);
    if q * shown <= n < (q + 1) * shown {
      MultiplyMonotone(shown, q, q);
      DivideExactly(n, shown, q, n - q * shown);
    }
  }

  predicate SameSize(a: Image, b: Image) {
    a.pixels.Length0 == b.pixels.Length0 && a.pixels.Length1 == b.pixels.Length1
  }

  predicate Fits(r: Rect, img: Image) {
    0 <= r.x.low && r.x.high <= img.pixels.Length0 && 0 <= r.y.low && r.y.high <= img.pixels.Length1
  }

  /** What nearest-neighbour scaling of `src` into `r` shows at a point of `r`. */
  function ScaledPixel(src: Image, r: Rect, x: int, y: int): int
    requires src.pixels.Length0 > 0 && src.pixels.Length1 > 0 && Inside(r, x, y)
    reads src.pixels
  {
    SampledInRange(x - r.x.low, src.pixels.Length0, r.x.high - r.x.low);
    SampledInRange(y - r.y.low, src.pixels.Length1, r.y.high - r.y.low);
    src.pixels[Sampled(x - r.x.low, src.pixels.Length0, r.x.high - r.x.low),
               Sampled(y - r.y.low, src.pixels.Length1, r.y.high - r.y.low)]
  }

  /** A point of `r` shows the pixel of `src` whose share of `r` it lies in, across and down. */
  lemma ScaledPixelCovers(src: Image, r: Rect, x: int, y: int, i: int, j: int)
    requires src.Contains(i, j) && Inside(r, x, y)
    requires var w := r.x.high - r.x.low; i * w <= (x - r.x.low) * src.pixels.Length0 < (i + 1) * w
    requires var h := r.y.high - r.y.low; j * h <= (y - r.y.low) * src.pixels.Length1 < (j + 1) * h
    ensures ScaledPixel(src, r, x, y) == src.pixels[i, j]
  {
    SampledCovers(x - r.x.low, src.pixels.Length0, r.x.high - r.x.low, i);
    SampledCovers(y - r.y.low, src.pixels.Length1, r.y.high - r.y.low, j);
  }

  method DrawScaledNearest(dst: Image, r: Rect, src: Image)
    requires dst.pixels != src.pixels && src.pixels.Length0 > 0 && src.pixels.Length1 > 0 && Fits(r, dst)
    modifies dst.pixels
    ensures forall x, y :: dst.Contains(x, y) ==>
              dst.pixels[x, y] == if Inside(r, x, y) then ScaledPixel(src, r, x, y) else old(dst.pixels[x, y])
  {
    var width, height := r.x.high - r.x.low, r.y.high - r.y.low;
    if width <= 0 || height <= 0 {
      return;
    }
    for j := 0 to height
      invariant forall x, y :: dst.Contains(x, y) ==>
                  dst.pixels[x, y] == if Inside(r, x, y) && y < r.y.low + j
                                      then ScaledPixel(src, r, x, y) else old(dst.pixels[x, y])
    {
      SampledInRange(j, src.pixels.Length1, height);
      var srcY := j * src.pixels.Length1 / height;
      for i := 0 to width
        invariant forall x, y :: dst.Contains(x, y) ==>
                    dst.pixels[x, y] == if Inside(r, x, y) && (y < r.y.low + j || (y == r.y.low + j && x < r.x.low + i))
                                        then ScaledPixel(src, r, x, y) else old(dst.pixels[x, y])
      {
        SampledInRange(i, src.pixels.Length0, width);
        var srcX := i * src.pixels.Length0 / width;
        dst.Set(r.x.low + i, r.y.low + j, src.pixels[srcX, srcY]);
      }
    }
  }

  /** Copies the whole of `src` into `r`, which has its size. */
  method DrawCopy(dst: Image, r: Rect, src: Image)
    requires dst.pixels != src.pixels && Fits(r, dst)
    requires r.x.high - r.x.low == src.pixels.Length0 && r.y.high - r.y.low == src.pixels.Length1
    modifies dst.pixels
    ensures forall x, y :: dst.Contains(x, y) ==>
              dst.pixels[x, y] == if Inside(r, x, y) then src.pixels[x - r.x.low, y - r.y.low]
                                  else old(dst.pixels[x, y])
  {
    forall x, y | r.x.low <= x < r.x.high && r.y.low <= y < r.y.high {
      dst.pixels[x, y] := src.pixels[x - r.x.low, y - r.y.low];
    }
  }

  method DrawUniform(dst: Image, r: Rect, ink: int)
    requires Fits(r, dst)
    modifies dst.pixels
    ensures forall x, y :: dst.Contains(x, y) ==>
              dst.pixels[x, y] == if Inside(r, x, y) then ink else old(dst.pixels[x, y])
  {
    forall x, y | r.x.low <= x < r.x.high && r.y.low <= y < r.y.high {
      dst.pixels[x, y] := ink;
    }
  }

  const OPAQUE: int := 255

  /** The source on a transparent canvas of the grown size, and the mask of what is to be kept. */
  method BuildExpandedSourceImage(source: Image, m: Margins) returns (canvas: Image?, mask: Image?)
    ensures var width, height := source.pixels.Length0, source.pixels.Length1;
            canvas != null <==>
              && width > 0 && height > 0
              && Grown(width, m.left, m.right) * Grown(height, m.top, m.bottom) <= 16_000_000
    ensures canvas != null ==>
              && mask != null && fresh(canvas) && fresh(mask) && SameSize(canvas, mask)
              && canvas.pixels.Length0 == Grown(source.pixels.Length0, m.left, m.right)
              && canvas.pixels.Length1 == Grown(source.pixels.Length1, m.top, m.bottom)
    ensures canvas != null ==>
              var r := SourceRect(source.pixels.Length0, source.pixels.Length1, m);
              forall x, y :: canvas.Contains(x, y) ==>
                && canvas.pixels[x, y] == (if Inside(r, x, y) then source.pixels[x - r.x.low, y - r.y.low] else 0)
                && mask.pixels[x, y] == if Inside(r, x, y) then OPAQUE else 0
  {
    var width, height := source.pixels.Length0, source.pixels.Length1;
    if width <= 0 || height <= 0 {
      return null, null;
    }
    var top, bottom := PercentPixels(height, m.top), PercentPixels(height, m.bottom);
    var left, right := PercentPixels(width, m.left), PercentPixels(width, m.right);
    GrownBounds(width, m.left, m.right);
    GrownBounds(height, m.top, m.bottom);
    var targetWidth, targetHeight := width + left + right, height + top + bottom;
    if targetWidth <= 0 || targetHeight <= 0 || targetWidth * targetHeight > MAX_CANVAS_PIXELS {
      return null, null;
    }
    var drawn := new Image(targetWidth, targetHeight);
    var kept := new Image(targetWidth, targetHeight);
    var r := Rect(Span(left, left + width), Span(top, top + height));
    DrawCopy(drawn, r, source);
    DrawUniform(kept, r, OPAQUE);
    canvas, mask := drawn, kept;
  }

  method ScaleSourceRect(width: int, height: int, m: Margins, resultWidth: int, resultHeight: int) returns (r: Rect)
    requires width > 0 && height > 0
    ensures r == PreserveRect(width, height, m, resultWidth, resultHeight)
  {
    var top, bottom := PercentPixels(height, m.top), PercentPixels(height, m.bottom);
    var left, right := PercentPixels(width, m.left), PercentPixels(width, m.right);
    GrownBounds(width, m.left, m.right);
    GrownBounds(height, m.top, m.bottom);
    var canvasWidth, canvasHeight := width + left + right, height + top + bottom;
    r := Rect(Ordered(Nearest(left * resultWidth, canvasWidth), Nearest((left + width) * resultWidth, canvasWidth)),
              Ordered(Nearest(top * resultHeight, canvasHeight), Nearest((top + height) * resultHeight, canvasHeight)));
    r := Intersect(r, Rect(Span(0, resultWidth), Span(0, resultHeight)));
  }

  /** The result with the original scaled back over the area it came from. */
  method PreserveExpandedResultOriginalArea(result: Image, original: Image, m: Margins) returns (output: Image?)
    ensures output != null <==>
            && result.pixels.Length0 > 0 && result.pixels.Length1 > 0
            && original.pixels.Length0 > 0 && original.pixels.Length1 > 0
            && !IsEmpty(PreserveRect(original.pixels.Length0, original.pixels.Length1, m,
                                  result.pixels.Length0, result.pixels.Length1))
    ensures output != null ==> fresh(output) && SameSize(output, result)
    ensures output != null ==>
              var r := PreserveRect(original.pixels.Length0, original.pixels.Length1, m,
                                    result.pixels.Length0, result.pixels.Length1);
              forall x, y :: output.Contains(x, y) ==>
                output.pixels[x, y] == if Inside(r, x, y) then ScaledPixel(original, r, x, y) else result.pixels[x, y]
  {
    var resultWidth, resultHeight := result.pixels.Length0, result.pixels.Length1;
    if resultWidth <= 0 || resultHeight <= 0 {
      return null;
    }
    var width, height := original.pixels.Length0, original.pixels.Length1;
    if width <= 0 || height <= 0 {
      return null;
    }
    var r := ScaleSourceRect(width, height, m, resultWidth, resultHeight);
    if IsEmpty(r) {
      return null;
    }
    var drawn := new Image(resultWidth, resultHeight);
    DrawCopy(drawn, Rect(Span(0, resultWidth), Span(0, resultHeight)), result);
    DrawScaledNearest(drawn, r, original);
    output := drawn;
  }

  /**
   When the provider keeps the size it was asked for, the original comes back pixel by pixel and in
   its place: what is drawn over a point is what the canvas sent to the provider had there.
   */
  lemma OriginalComesBackExactly(original: Image, m: Margins, x: int, y: int)
    requires original.pixels.Length0 > 0 && original.pixels.Length1 > 0
    requires Inside(SourceRect(original.pixels.Length0, original.pixels.Length1, m), x, y)
    ensures var width, height := original.pixels.Length0, original.pixels.Length1;
            var r := PreserveRect(width, height, m, Grown(width, m.left, m.right), Grown(height, m.top, m.bottom));
            var s := SourceRect(width, height, m);
            && original.Contains(x - s.x.low, y - s.y.low)
            && Inside(r, x, y)
            && ScaledPixel(original, r, x, y) == original.pixels[x - s.x.low, y - s.y.low]
  {
    var width, height := original.pixels.Length0, original.pixels.Length1;
    UnchangedSizePreservesSource(width, height, m);
    SampledInRange(x - SourceSpan(width, m.left).low, width, width);
    SampledInRange(y - SourceSpan(height, m.top).low, height, height);
  }
}
