/**
 * The two thumbnail pipelines: an image file, and the first frame of a video
 * file, each drawn onto a fixed 400 x 500 canvas as a blurred cover background
 * under a sharp contain foreground and encoded as a JPEG data URL.
 *
 * The browser's asynchronous work (reading the file, decoding the image or the
 * video, obtaining a 2D context, JPEG encoding) is a parameter: a description of
 * how each step turned out, and an opaque encoder. A pipeline run is recorded as
 * the list of effects it issued and the way its promise settled.
 */
module MediaHelper {
  import opened Wrappers
  import opened Geometry
  import opened Canvas

  /** The radius, in pixels, of the background blur. */
  const BlurRadius: nat := 20

  /** The JPEG quality passed to `toDataURL`. */
  const JpegQuality: real := 0.8

  /** Every data URL the pipelines produce starts with this. */
  const JpegDataUrlPrefix: string := "data:image/jpeg;base64,"

  const ImageContextMessage: string := "Could not get 2D context from canvas."
  const VideoContextMessage: string := "Could not get 2D context for video thumbnail."

  /**
   * Why a pipeline's promise rejected. A failed file read or media decode
   * rejects with a DOM event, which carries no message; a missing context
   * rejects with an `Error` carrying the given message.
   */
  datatype ThumbError = ReadError | DecodeError | NoContext(message: string)

  /** An effect observable from outside the pipeline. */
  datatype Effect =
    | CreateObjectUrl
    | RevokeObjectUrl
    | Paint(op: CanvasOp)
    | EncodeJpeg(quality: real)

  /** A run of a pipeline: what it did, and how its promise settled. */
  datatype Trace = Trace(effects: seq<Effect>, result: Result<string, ThumbError>)

  /** How the browser handled an image file. */
  datatype ImageLoad =
    | ReadFailed
    | ImageDecodeFailed
    | ImageDecoded(natural: Size, hasContext: bool)

  /** How the browser handled a video file: an error event, or a seek to time 0. */
  datatype VideoLoad =
    | VideoFailed
    | FrameSeeked(frame: Size, hasContext: bool)

  /** The browser's JPEG encoder: the base64 payload for a canvas of the given size and content. */
  type JpegEncoder = (Size, seq<CanvasOp>, real) -> string

  // ---------------------------------------------------------------------------
  // The draw passes as calls on the context

  /** The background pass: blurred between a save and a restore. */
  function DrawBlurredCoverBackground(src: Size, canvas: Size): (ops: seq<CanvasOp>)
    ensures forall s :: Run(s, ops) == s
    ensures forall s :: Strokes(s, ops) == [Stroke(Cover(src, canvas), Blur(BlurRadius))]
  {
    var inner := [SetFilter(Blur(BlurRadius)), DrawImage(Cover(src, canvas))];
    forall s ensures Run(s, [Save] + inner + [Restore]) == s
      && Strokes(s, [Save] + inner + [Restore]) == [Stroke(Cover(src, canvas), Blur(BlurRadius))]
    {
      ScopedRestores(s, inner);
      ScopedDrawStrokes(s, Blur(BlurRadius), Cover(src, canvas));
    }
    [Save] + inner + [Restore]
  }

  /** A draw issued after setting filter `f` inside a save/restore pair is drawn under `f`. */
  lemma ScopedDrawStrokes(s: DrawingState, f: Filter, r: Rect)
    ensures Strokes(s, [Save] + [SetFilter(f), DrawImage(r)] + [Restore]) == [Stroke(r, f)]
  {
    var ops := [Save] + [SetFilter(f), DrawImage(r)] + [Restore];
    var s1 := Step(s, Save);
    var s2 := Step(s1, SetFilter(f));
    assert ops[1..] == [SetFilter(f), DrawImage(r), Restore];
    assert ops[1..][1..] == [DrawImage(r), Restore];
    assert ops[1..][1..][1..] == [Restore];
    assert Strokes(Step(s2, DrawImage(r)), [Restore]) == [];
    assert Strokes(s2, [DrawImage(r), Restore]) == [Stroke(r, f)];
  }

  /** The foreground pass: a single draw that sets no filter of its own. */
  function DrawImageContain(src: Size, canvas: Size): (ops: seq<CanvasOp>)
    ensures forall s :: Run(s, ops) == s
    ensures forall s :: Strokes(s, ops) == [Stroke(Contain(src, canvas), s.filter)]
  {
    [DrawImage(Contain(src, canvas))]
  }

  /** The video background pass. */
  function DrawBlurredCoverBackgroundVideo(video: Size, canvas: Size): (ops: seq<CanvasOp>)
    ensures ops == DrawBlurredCoverBackground(video, canvas)
  {
    CoverVideoMatchesImage(video, canvas);
    [Save, SetFilter(Blur(BlurRadius)), DrawImage(CoverVideo(video, canvas)), Restore]
  }

  /** The video foreground pass. */
  function DrawImageContainVideo(video: Size, canvas: Size): (ops: seq<CanvasOp>)
    ensures ops == DrawImageContain(video, canvas)
  {
    ContainVideoMatchesImage(video, canvas);
    [DrawImage(ContainVideo(video, canvas))]
  }

  /** What lands on a fresh thumbnail canvas for a source of the given size. */
  function ThumbnailStrokes(src: Size): seq<Stroke> {
    [ Stroke(Cover(src, ThumbnailSize), Blur(BlurRadius)),
      Stroke(Contain(src, ThumbnailSize), NoFilter) ]
  }

  /**
   * Background then foreground on a fresh context: the background is blurred,
   * the foreground is not, and the context ends as it started.
   */
  lemma CompositeOrder(src: Size, canvas: Size)
    ensures var ops := DrawBlurredCoverBackground(src, canvas) + DrawImageContain(src, canvas);
      && Strokes(Fresh, ops)
         == [Stroke(Cover(src, canvas), Blur(BlurRadius)), Stroke(Contain(src, canvas), NoFilter)]
      && Run(Fresh, ops) == Fresh
  {
    var bg, fg := DrawBlurredCoverBackground(src, canvas), DrawImageContain(src, canvas);
    StrokesAppend(Fresh, bg, fg);
    RunAppend(Fresh, bg, fg);
  }

  // ---------------------------------------------------------------------------
  // Effect logs

  /** Every effect is a paint. */
  function Paints(ops: seq<CanvasOp>): (es: seq<Effect>)
    ensures |es| == |ops|
    ensures forall i | 0 <= i < |ops| :: es[i] == Paint(ops[i])
  {
    seq(|ops|, i requires 0 <= i < |ops| => Paint(ops[i]))
  }

  /** The context calls among the effects, in order. */
  function Painted(es: seq<Effect>): seq<CanvasOp>
    decreases |es|
  {
    if |es| == 0 then []
    else (if es[0].Paint? then [es[0].op] else []) + Painted(es[1..])
  }

  lemma {:induction false} PaintedAppend(a: seq<Effect>, b: seq<Effect>)
    ensures Painted(a + b) == Painted(a) + Painted(b)
    decreases |a|
  {
    if |a| == 0 {
      assert a + b == b;
    } else {
      assert (a + b)[0] == a[0];
      assert (a + b)[1..] == a[1..] + b;
      PaintedAppend(a[1..], b);
    }
  }

  lemma {:induction false} PaintedPaints(ops: seq<CanvasOp>)
    ensures Painted(Paints(ops)) == ops
    decreases |ops|
  {
    if |ops| > 0 {
      assert Paints(ops)[1..] == Paints(ops[1..]);
      PaintedPaints(ops[1..]);
    }
  }

  /** The paints and the encode of a successful run, in order. */
  function Composite(bg: seq<CanvasOp>, fg: seq<CanvasOp>): seq<Effect> {
    Paints(bg + fg) + [EncodeJpeg(JpegQuality)]
  }

  /** The canvas calls of a composite are the background's followed by the foreground's. */
  lemma CompositePainted(bg: seq<CanvasOp>, fg: seq<CanvasOp>)
    ensures Painted(Composite(bg, fg)) == bg + fg
  {
    PaintedAppend(Paints(bg + fg), [EncodeJpeg(JpegQuality)]);
    PaintedPaints(bg + fg);
    assert Painted([EncodeJpeg(JpegQuality)]) == [];
  }

  /** The data URL `toDataURL('image/jpeg', 0.8)` returns for a thumbnail canvas. */
  function ToDataUrl(ops: seq<CanvasOp>, jpeg: JpegEncoder): (url: string)
    ensures JpegDataUrlPrefix <= url
  {
    JpegDataUrlPrefix + jpeg(ThumbnailSize, ops, JpegQuality)
  }

  /** No temporary object URL is created or revoked. */
  predicate NoObjectUrls(es: seq<Effect>) {
    forall i | 0 <= i < |es| :: !es[i].CreateObjectUrl? && !es[i].RevokeObjectUrl?
  }

  /** Only canvas calls and encoding. */
  predicate CanvasWork(es: seq<Effect>) {
    forall i | 0 <= i < |es| :: es[i].Paint? || es[i].EncodeJpeg?
  }

  /**
   * The temporary object URL is created first, revoked last, and nothing but
   * canvas work and encoding happens in between.
   */
  predicate ReleasesObjectUrl(es: seq<Effect>) {
    && |es| >= 2
    && es[0] == CreateObjectUrl
    && es[|es| - 1] == RevokeObjectUrl
    && CanvasWork(es[1..|es| - 1])
  }

  // ---------------------------------------------------------------------------
  // The pipelines

  /**
   * An image file: read it as a data URL, decode it, draw it onto a 400 x 500
   * canvas and encode the canvas.
   */
  function ResizeImageTo4by5(load: ImageLoad, jpeg: JpegEncoder): (t: Trace)
    ensures NoObjectUrls(t.effects)
    ensures t.result.Success? <==> load.ImageDecoded? && load.hasContext
    ensures load.ReadFailed? ==> t.result == Failure(ReadError)
    ensures load.ImageDecodeFailed? ==> t.result == Failure(DecodeError)
    ensures load.ImageDecoded? && !load.hasContext ==>
      t.result == Failure(NoContext(ImageContextMessage))
    ensures t.result.Failure? ==> t.effects == []
    ensures t.result.Success? ==>
      && JpegDataUrlPrefix <= t.result.value
      && |t.effects| >= 1
      && t.effects[|t.effects| - 1] == EncodeJpeg(JpegQuality)
      && Strokes(Fresh, Painted(t.effects)) == ThumbnailStrokes(load.natural)
      && t.result.value == ToDataUrl(Painted(t.effects), jpeg)
  {
    match load
    case ReadFailed => Trace([], Failure(ReadError))
    case ImageDecodeFailed => Trace([], Failure(DecodeError))
    case ImageDecoded(natural, hasContext) =>
      var canvas := Compute4by5Dimensions(natural.width, natural.height);
      if !hasContext then Trace([], Failure(NoContext(ImageContextMessage)))
      else
        var bg := DrawBlurredCoverBackground(natural, canvas);
        var fg := DrawImageContain(natural, canvas);
        CompositePainted(bg, fg);
        CompositeOrder(natural, canvas);
        Trace(Composite(bg, fg), Success(ToDataUrl(bg + fg, jpeg)))
  }

  /**
   * A video file: point a video element at a temporary object URL, seek to
   * time 0, draw that frame as the image pipeline would, and release the URL
   * on every way out.
   */
  function GenerateVideoThumbnail(load: VideoLoad, jpeg: JpegEncoder): (t: Trace)
    ensures ReleasesObjectUrl(t.effects)
    ensures t.result.Success? <==> load.FrameSeeked? && load.hasContext
    ensures load.VideoFailed? ==> t.result == Failure(DecodeError)
    ensures load.FrameSeeked? && !load.hasContext ==>
      t.result == Failure(NoContext(VideoContextMessage))
    ensures t.result.Failure? ==> t.effects == [CreateObjectUrl, RevokeObjectUrl]
    ensures t.result.Success? ==>
      && JpegDataUrlPrefix <= t.result.value
      && |t.effects| >= 2
      && t.effects[|t.effects| - 2] == EncodeJpeg(JpegQuality)
      && Strokes(Fresh, Painted(t.effects)) == ThumbnailStrokes(load.frame)
      && t.result.value == ToDataUrl(Painted(t.effects), jpeg)
  {
    match load
    case VideoFailed => Trace([CreateObjectUrl, RevokeObjectUrl], Failure(DecodeError))
    case FrameSeeked(frame, hasContext) =>
      var canvas := Compute4by5Dimensions(frame.width, frame.height);
      if !hasContext then
        Trace([CreateObjectUrl, RevokeObjectUrl], Failure(NoContext(VideoContextMessage)))
      else VideoFrameDrawn(frame, jpeg)
  }

  /** The success path of the video pipeline, once the frame at time 0 is available. */
  function VideoFrameDrawn(frame: Size, jpeg: JpegEncoder): (t: Trace)
    ensures ReleasesObjectUrl(t.effects)
    ensures t.result.Success? && JpegDataUrlPrefix <= t.result.value
    ensures |t.effects| >= 2 && t.effects[|t.effects| - 2] == EncodeJpeg(JpegQuality)
    ensures Strokes(Fresh, Painted(t.effects)) == ThumbnailStrokes(frame)
    ensures t.result.value == ToDataUrl(Painted(t.effects), jpeg)
  {
    var canvas := Compute4by5Dimensions(frame.width, frame.height);
    var bg := DrawBlurredCoverBackgroundVideo(frame, canvas);
    var fg := DrawImageContainVideo(frame, canvas);
    var work := Composite(bg, fg);
    CompositePainted(bg, fg);
    CompositeOrder(frame, canvas);
    VideoEffectsPainted(work);
    CompositeIsCanvasWork(bg, fg);
    ReleasedAround(work);
    Trace([CreateObjectUrl] + work + [RevokeObjectUrl], Success(ToDataUrl(bg + fg, jpeg)))
  }

  /**
   * A video frame and an image of the same size come out the same: the same
   * canvas calls, hence the same data URL for the same encoder.
   */
  lemma VideoMatchesImage(size: Size, hasContext: bool, jpeg: JpegEncoder)
    ensures var v := GenerateVideoThumbnail(FrameSeeked(size, hasContext), jpeg);
      var i := ResizeImageTo4by5(ImageDecoded(size, hasContext), jpeg);
      && (v.result.Success? <==> i.result.Success?)
      && (v.result.Success? ==> v.result.value == i.result.value)
      && Painted(v.effects) == Painted(i.effects)
  {
    if hasContext {
      var i := ResizeImageTo4by5(ImageDecoded(size, true), jpeg);
      VideoWrapsImage(size, jpeg);
      VideoEffectsPainted(i.effects);
    } else {
      assert Painted([CreateObjectUrl, RevokeObjectUrl]) == [];
    }
  }

  /** With a context, the video run is the image run wrapped in the object URL's life. */
  lemma VideoWrapsImage(size: Size, jpeg: JpegEncoder)
    ensures var i := ResizeImageTo4by5(ImageDecoded(size, true), jpeg);
      GenerateVideoThumbnail(FrameSeeked(size, true), jpeg)
        == Trace([CreateObjectUrl] + i.effects + [RevokeObjectUrl], i.result)
  {
    var canvas := ThumbnailSize;
    var bg := DrawBlurredCoverBackground(size, canvas);
    var fg := DrawImageContain(size, canvas);
    assert DrawBlurredCoverBackgroundVideo(size, canvas) == bg;
    assert DrawImageContainVideo(size, canvas) == fg;
  }

  /** A composite consists of canvas calls and the encode. */
  lemma CompositeIsCanvasWork(bg: seq<CanvasOp>, fg: seq<CanvasOp>)
    ensures CanvasWork(Composite(bg, fg))
    ensures |Composite(bg, fg)| >= 1
    ensures Composite(bg, fg)[|Composite(bg, fg)| - 1] == EncodeJpeg(JpegQuality)
  {
  }

  /** Work that only paints and encodes, wrapped in the object URL's creation and release. */
  lemma ReleasedAround(work: seq<Effect>)
    requires CanvasWork(work)
    ensures ReleasesObjectUrl([CreateObjectUrl] + work + [RevokeObjectUrl])
  {
  }

  /** Wrapping work in the object URL's creation and release adds no canvas calls. */
  lemma VideoEffectsPainted(work: seq<Effect>)
    ensures Painted([CreateObjectUrl] + work + [RevokeObjectUrl]) == Painted(work)
  {
    PaintedAppend([CreateObjectUrl], work);
    PaintedAppend([CreateObjectUrl] + work, [RevokeObjectUrl]);
    assert Painted([CreateObjectUrl]) == [] && Painted([RevokeObjectUrl]) == [];
  }
}
