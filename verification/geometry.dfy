/**
 * Where a source image or video frame is drawn on the thumbnail canvas.
 *
 * Both passes compare the aspect ratio of the source with that of the canvas.
 * The cover pass fills the whole canvas and lets the overflow be cropped; it is
 * drawn blurred as the background. The contain pass fits the whole source inside
 * the canvas, centred, and is drawn sharp on top. The arithmetic is exact: a
 * source or canvas dimension is a positive real.
 */
module Geometry {

  /** A strictly positive length. The code divides by every such length. */
  type Length = r: real | r > 0.0 witness 1.0

  /** Width and height of a canvas, an image, or a video frame. */
  datatype Size = Size(width: Length, height: Length)

  /** The destination rectangle of one `drawImage(src, x, y, w, h)` call. */
  datatype Rect = Rect(x: real, y: real, w: real, h: real)

  /** The thumbnail canvas: 400 wide, 500 high. */
  const ThumbnailSize: Size := Size(400.0, 500.0)

  // ---------------------------------------------------------------------------
  // Geometric vocabulary

  /** Width over height. */
  function Ratio(s: Size): real {
    s.width / s.height
  }

  /** The source is strictly wider, relative to its height, than the canvas. */
  predicate WiderThan(src: Size, canvas: Size) {
    Ratio(src) > Ratio(canvas)
  }

  /** No point of the canvas is left outside the drawn rectangle. */
  predicate CoversCanvas(r: Rect, canvas: Size) {
    && r.x <= 0.0
    && r.y <= 0.0
    && r.x + r.w >= canvas.width
    && r.y + r.h >= canvas.height
  }

  /** The drawn rectangle lies within [0, width] x [0, height] of the canvas. */
  predicate InsideCanvas(r: Rect, canvas: Size) {
    && 0.0 <= r.x
    && 0.0 <= r.y
    && r.x + r.w <= canvas.width
    && r.y + r.h <= canvas.height
  }

  /** The rectangle has positive extent and the same width-to-height ratio as the source. */
  predicate SameAspect(r: Rect, src: Size) {
    r.w > 0.0 && r.h > 0.0 && r.w / r.h == Ratio(src)
  }

  /** The rectangle's centre is the canvas's centre: each offset is half the slack. */
  predicate Centred(r: Rect, canvas: Size) {
    r.x == (canvas.width - r.w) / 2.0 && r.y == (canvas.height - r.h) / 2.0
  }

  /** One rectangle contains the other. */
  predicate Within(inner: Rect, outer: Rect) {
    && outer.x <= inner.x
    && outer.y <= inner.y
    && inner.x + inner.w <= outer.x + outer.w
    && inner.y + inner.h <= outer.y + outer.h
  }

  // ---------------------------------------------------------------------------
  // Reference definition: the source scaled uniformly by `s`, centred on the canvas

  function Max(a: real, b: real): real {
    if a >= b then a else b
  }

  function Min(a: real, b: real): real {
    if a <= b then a else b
  }

  /** The source scaled by factor `s` and centred on the canvas. */
  function Scaled(src: Size, canvas: Size, s: real): Rect {
    Rect((canvas.width - src.width * s) / 2.0, (canvas.height - src.height * s) / 2.0,
         src.width * s, src.height * s)
  }

  /** The smallest uniform scale at which the source covers the canvas. */
  function CoverScale(src: Size, canvas: Size): real {
    Max(canvas.width / src.width, canvas.height / src.height)
  }

  /** The largest uniform scale at which the source fits inside the canvas. */
  function ContainScale(src: Size, canvas: Size): real {
    Min(canvas.width / src.width, canvas.height / src.height)
  }

  // ---------------------------------------------------------------------------
  // Arithmetic helpers

  /** Comparing the two ratios is comparing the cross products. */
  lemma WiderIffCross(src: Size, canvas: Size)
    ensures WiderThan(src, canvas) <==> src.width * canvas.height > canvas.width * src.height
    ensures WiderThan(src, canvas) <==> canvas.height / src.height > canvas.width / src.width
  {
    var a: real, b: real := src.width, src.height;
    var c: real, d: real := canvas.width, canvas.height;
    assert a / b - c / d == (a * d - c * b) / (b * d);
    assert d / b - c / a == (d * a - c * b) / (a * b);
  }

  /**
   * Side `a` of a source with sides `a` and `b`, scaled so that side `b` becomes
   * `c`, reaches `d` whenever that scale is at least `d / a`, and keeps the ratio.
   */
  lemma FillAlong(a: real, b: real, c: real, d: real)
    requires a > 0.0 && b > 0.0 && c > 0.0 && d > 0.0
    requires c / b >= d / a
    ensures a * (c / b) > 0.0
    ensures a * (c / b) >= d
    ensures a * (c / b) / c == a / b
    ensures c / (a * (c / b)) == b / a
  {
    assert a * (c / b) == (a * c) / b;
    assert a * (d / a) == d;
  }

  /** A rectangle scaled from the source keeps the source's aspect ratio. */
  lemma ScaledKeepsAspect(src: Size, canvas: Size, s: real)
    requires s > 0.0
    ensures SameAspect(Scaled(src, canvas, s), src)
  {
  }

  // ---------------------------------------------------------------------------
  // The image passes

  /**
   * The blurred background pass: fills the canvas along the axis on which the
   * source is relatively shorter and crops the overflow of the other axis.
   */
  function Cover(src: Size, canvas: Size): (r: Rect)
    ensures CoversCanvas(r, canvas)
    ensures SameAspect(r, src)
    ensures Centred(r, canvas)
    ensures r.w == canvas.width || r.h == canvas.height
  {
    WiderIffCross(src, canvas);
    if WiderThan(src, canvas) then
      var drawH := canvas.height;
      var drawW := src.width * (drawH / src.height);
      FillAlong(src.width, src.height, canvas.height, canvas.width);
      Rect((canvas.width - drawW) / 2.0, 0.0, drawW, drawH)
    else
      var drawW := canvas.width;
      var drawH := src.height * (drawW / src.width);
      FillAlong(src.height, src.width, canvas.width, canvas.height);
      Rect(0.0, (canvas.height - drawH) / 2.0, drawW, drawH)
  }

  /**
   * The sharp foreground pass: fits the whole source inside the canvas, equal to
   * the canvas along the axis on which the source is relatively longer.
   */
  function Contain(src: Size, canvas: Size): (r: Rect)
    ensures InsideCanvas(r, canvas)
    ensures SameAspect(r, src)
    ensures Centred(r, canvas)
    ensures r.w == canvas.width || r.h == canvas.height
  {
    WiderIffCross(src, canvas);
    var (finalW, finalH) :=
      if WiderThan(src, canvas) then
        (canvas.width, src.height * (canvas.width / src.width))
      else
        (src.width * (canvas.height / src.height), canvas.height);
    ScaledKeepsAspect(src, canvas, canvas.width / src.width);
    ScaledKeepsAspect(src, canvas, canvas.height / src.height);
    Rect((canvas.width - finalW) / 2.0, (canvas.height - finalH) / 2.0, finalW, finalH)
  }

  // ---------------------------------------------------------------------------
  // The video passes: the separate copies `drawBlurredCoverBackgroundVideo` and
  // `drawImageContainVideo` in the code, which read videoWidth/videoHeight

  /** The video background pass; written out as the video copy is written. */
  function CoverVideo(video: Size, canvas: Size): (r: Rect)
    ensures r.w > 0.0 && r.h > 0.0
  {
    var canvasRatio := canvas.width / canvas.height;
    var videoRatio := video.width / video.height;
    if videoRatio > canvasRatio then
      var drawH := canvas.height;
      var drawW := video.width * (drawH / video.height);
      Rect((canvas.width - drawW) / 2.0, 0.0, drawW, drawH)
    else
      var drawW := canvas.width;
      var drawH := video.height * (drawW / video.width);
      Rect(0.0, (canvas.height - drawH) / 2.0, drawW, drawH)
  }

  /**
   * The video foreground pass. Unlike the image copy it only centres the
   * unconstrained axis and leaves the constrained axis's offset at zero.
   */
  function ContainVideo(video: Size, canvas: Size): (r: Rect)
    ensures r.w > 0.0 && r.h > 0.0
  {
    var canvasRatio := canvas.width / canvas.height;
    var videoRatio := video.width / video.height;
    if videoRatio > canvasRatio then
      var finalW := canvas.width;
      var finalH := video.height * (finalW / video.width);
      Rect(0.0, (canvas.height - finalH) / 2.0, finalW, finalH)
    else
      var finalH := canvas.height;
      var finalW := video.width * (finalH / video.height);
      Rect((canvas.width - finalW) / 2.0, 0.0, finalW, finalH)
  }

  // ---------------------------------------------------------------------------
  // Properties

  /** The cover pass is the source centred at the smallest scale that covers the canvas. */
  lemma CoverIsScaledByMax(src: Size, canvas: Size)
    ensures Cover(src, canvas) == Scaled(src, canvas, CoverScale(src, canvas))
  {
  }

  /** The contain pass is the source centred at the largest scale that fits the canvas. */
  lemma ContainIsScaledByMin(src: Size, canvas: Size)
    ensures Contain(src, canvas) == Scaled(src, canvas, ContainScale(src, canvas))
  {
  }

  /** The cover scale is the least uniform scale at which the centred source covers the canvas. */
  lemma CoverScaleIsLeast(src: Size, canvas: Size, s: real)
    requires s > 0.0
    ensures CoversCanvas(Scaled(src, canvas, s), canvas) <==> s >= CoverScale(src, canvas)
  {
  }

  /** The contain scale is the greatest uniform scale at which the centred source fits the canvas. */
  lemma ContainScaleIsGreatest(src: Size, canvas: Size, s: real)
    requires s > 0.0
    ensures InsideCanvas(Scaled(src, canvas, s), canvas) <==> s <= ContainScale(src, canvas)
  {
  }

  /**
   * Which axis each pass pins to the canvas: a relatively wider source fills the
   * canvas height under cover and the canvas width under contain; otherwise the
   * other way round.
   */
  lemma PinnedAxes(src: Size, canvas: Size)
    ensures WiderThan(src, canvas) ==>
      Cover(src, canvas).h == canvas.height && Cover(src, canvas).y == 0.0
      && Contain(src, canvas).w == canvas.width && Contain(src, canvas).x == 0.0
    ensures !WiderThan(src, canvas) ==>
      Cover(src, canvas).w == canvas.width && Cover(src, canvas).x == 0.0
      && Contain(src, canvas).h == canvas.height && Contain(src, canvas).y == 0.0
  {
  }

  /** The sharp foreground always lies within the blurred background. */
  lemma ContainWithinCover(src: Size, canvas: Size)
    ensures Within(Contain(src, canvas), Cover(src, canvas))
  {
  }

  /** When the source has the canvas's own shape, both passes draw exactly the canvas. */
  lemma SameShapeFillsExactly(src: Size, canvas: Size)
    requires Ratio(src) == Ratio(canvas)
    ensures Cover(src, canvas) == Rect(0.0, 0.0, canvas.width, canvas.height)
    ensures Contain(src, canvas) == Rect(0.0, 0.0, canvas.width, canvas.height)
  {
  }

  /** The video background pass draws the same rectangle as the image background pass. */
  lemma CoverVideoMatchesImage(video: Size, canvas: Size)
    ensures CoverVideo(video, canvas) == Cover(video, canvas)
  {
  }

  /**
   * The video foreground pass draws the same rectangle as the image foreground
   * pass: on the pinned axis the image copy's centring offset is
   * (canvasDim - canvasDim) / 2, which is the video copy's zero.
   */
  lemma ContainVideoMatchesImage(video: Size, canvas: Size)
    ensures ContainVideo(video, canvas) == Contain(video, canvas)
  {
  }

  // ---------------------------------------------------------------------------
  // Dimension policy

  /**
   * The target canvas size for a source of the given size. The policy is a
   * constant: it ignores its inputs and always answers 400 x 500.
   */
  function Compute4by5Dimensions(origWidth: real, origHeight: real): (r: Size)
    ensures r.width * 5.0 == r.height * 4.0
  {
    ThumbnailSize
  }

  /** Whatever two sources are measured, the policy answers the same 400 x 500 canvas. */
  lemma DimensionsIgnoreSource(w1: real, h1: real, w2: real, h2: real)
    ensures Compute4by5Dimensions(w1, h1) == Compute4by5Dimensions(w2, h2)
    ensures Compute4by5Dimensions(w1, h1).width == 400.0
    ensures Compute4by5Dimensions(w1, h1).height == 500.0
  {
  }

  /**
   * A 1000 x 2000 portrait source: the background is 400 x 800 shifted up by 150,
   * the foreground 250 x 500 shifted right by 75.
   */
  lemma PortraitExample()
    ensures Cover(Size(1000.0, 2000.0), ThumbnailSize) == Rect(0.0, -150.0, 400.0, 800.0)
    ensures Contain(Size(1000.0, 2000.0), ThumbnailSize) == Rect(75.0, 0.0, 250.0, 500.0)
  {
  }
}
