/** The per-box loop of `FaceDetector.detect_faces`: boxes found by the cascade
    classifier in the 400-pixel-wide working image are scaled back to the
    source frame, padded by 15 percent of their size on every side and clipped
    to the frame. The classifier itself is external: its box list is an input. */
module FaceDetection {
  import opened Channel

  /** Percentage of a box's width (height) added on each side. */
  const Padding: int := 15
  /** Width of the grey working image handed to the classifier. */
  const OptimizedWidth: int := 400

  /** A classifier box `(x, y, w, h)` in working-image pixels. */
  datatype Box = Box(x: int, y: int, w: int, h: int)

  /** `(left, top, right, bottom)` in source-frame pixels. */
  datatype Region = Region(left: int, top: int, right: int, bottom: int)

  /** Python's `int()` applied to a float: truncation toward zero. */
  function Trunc(r: real): (t: int)
    ensures 0.0 <= r ==> t as real <= r < t as real + 1.0
    ensures r < 0.0 ==> t as real - 1.0 < r <= t as real
  {
    if r >= 0.0 then r.Floor else -((-r).Floor)
  }

  /** `source_image_width / OPTIMIZED_WIDTH`. */
  function ScaleFactor(sourceWidth: int): real
  {
    sourceWidth as real / OptimizedWidth as real
  }

  /** `int(size * PADDING / 100)`. */
  function PaddingFor(size: int): int
  {
    Trunc((size * Padding) as real / 100.0)
  }

  /** `int(v * scale_factor)`. */
  function Scale(v: int, scale: real): int
  {
    Trunc(v as real * scale)
  }

  /** The box scaled to source-frame pixels, each coordinate truncated. */
  function ScaleBox(b: Box, scale: real): Box
  {
    Box(Scale(b.x, scale), Scale(b.y, scale), Scale(b.w, scale), Scale(b.h, scale))
  }

  function Max(a: int, b: int): int { if a < b then b else a }
  function Min(a: int, b: int): int { if a < b then a else b }

  /** The region one classifier box becomes in the source frame. */
  function NormaliseBox(b: Box, scale: real, width: int, height: int): (r: Region)
    ensures 0 <= r.left && 0 <= r.top
    ensures r.right <= width && r.bottom <= height
  {
    var s := ScaleBox(b, scale);
    var widthPadding := PaddingFor(s.w);
    var heightPadding := PaddingFor(s.h);
    Region(Max(s.x - widthPadding, 0), Max(s.y - heightPadding, 0),
           Min(s.x + s.w + widthPadding, width), Min(s.y + s.h + heightPadding, height))
  }

  /** The log line that reports how many faces were found. */
  function FoundFacesMessage(count: nat): string
  {
    "Found " + Decimal(count) + " face(s)"
  }

  /** The normalisation loop of `detect_faces`, given the classifier's boxes
      and the source frame's size; also returns the log record it emits. */
  method DetectFaces(faceRects: seq<Box>, sourceImageWidth: int, sourceImageHeight: int)
    returns (outputFaceRects: seq<Region>, log: Record)
    ensures |outputFaceRects| == |faceRects|
    ensures forall i :: 0 <= i < |faceRects| ==>
      outputFaceRects[i] == NormaliseBox(faceRects[i], ScaleFactor(sourceImageWidth), sourceImageWidth, sourceImageHeight)
    ensures forall r :: r in outputFaceRects ==>
      0 <= r.left && 0 <= r.top && r.right <= sourceImageWidth && r.bottom <= sourceImageHeight
    ensures log == Record("log", JStr(FoundFacesMessage(|outputFaceRects|)))
  {
    var scaleFactor := sourceImageWidth as real / OptimizedWidth as real;
    outputFaceRects := [];
    for k := 0 to |faceRects|
      invariant |outputFaceRects| == k
      invariant forall i :: 0 <= i < k ==>
        outputFaceRects[i] == NormaliseBox(faceRects[i], scaleFactor, sourceImageWidth, sourceImageHeight)
    {
      var face := faceRects[k];
      var x := Scale(face.x, scaleFactor);
      var y := Scale(face.y, scaleFactor);
      var w := Scale(face.w, scaleFactor);
      var h := Scale(face.h, scaleFactor);
      var widthPadding := PaddingFor(w);
      var heightPadding := PaddingFor(h);
      var x1 := Max(x - widthPadding, 0);
      var y1 := Max(y - heightPadding, 0);
      var x2 := Min(x + w + widthPadding, sourceImageWidth);
      var y2 := Min(y + h + heightPadding, sourceImageHeight);
      assert Region(x1, y1, x2, y2) == NormaliseBox(face, scaleFactor, sourceImageWidth, sourceImageHeight);
      outputFaceRects := outputFaceRects + [Region(x1, y1, x2, y2)];
    }
    assert forall r :: r in outputFaceRects ==> exists i :: 0 <= i < |faceRects| && r == outputFaceRects[i];
    log := Record("log", JStr(FoundFacesMessage(|outputFaceRects|)));
  }

  /** For a non-negative size the padding is the integer percentage
      `size * 15 / 100`, rounded down. */
  lemma PaddingIsIntegerPercent(size: int)
    requires 0 <= size
    ensures PaddingFor(size) == size * Padding / 100
    ensures 0 <= PaddingFor(size) <= size
  {
    var q, m := size * Padding / 100, size * Padding % 100;
    assert (size * Padding) as real / 100.0 == q as real + m as real / 100.0;
  }

  /** A scaled box of non-negative size that lies inside the frame is
      contained in its padded region; a box of positive width (height) gives
      a region of positive width (height). */
  lemma RegionContainsScaledBox(b: Box, scale: real, width: int, height: int)
    requires var s := ScaleBox(b, scale); 0 <= s.w && 0 <= s.h
    requires var s := ScaleBox(b, scale); 0 <= s.x && s.x + s.w <= width && 0 <= s.y && s.y + s.h <= height
    ensures var s := ScaleBox(b, scale); var r := NormaliseBox(b, scale, width, height);
      r.left <= s.x && s.x + s.w <= r.right && r.top <= s.y && s.y + s.h <= r.bottom
    ensures var s := ScaleBox(b, scale); var r := NormaliseBox(b, scale, width, height);
      (0 < s.w ==> r.left < r.right) && (0 < s.h ==> r.top < r.bottom)
  {
    var s := ScaleBox(b, scale);
    PaddingIsIntegerPercent(s.w);
    PaddingIsIntegerPercent(s.h);
  }

  /** The count in the log line is the number of regions returned. */
  lemma FoundFacesMessageReportsCount(count: nat)
    ensures var m := FoundFacesMessage(count);
      |m| >= 14 && AllDigits(m[6..|m| - 8]) && ParseDecimal(m[6..|m| - 8]) == count
  {
    var m := FoundFacesMessage(count);
    assert m[6..|m| - 8] == Decimal(count);
    ParseDecimalInvertsDecimal(count);
  }
}
