/**
 * The upload gate of the media picker card: what happens when the user chooses
 * a file. Images go to the image pipeline whatever their size; videos go to the
 * video pipeline if they are no larger than the configured maximum; everything
 * else is refused. Every failure leaves a message and clears the staged preview.
 *
 * The handler's React state calls are recorded, in order, as a list of updates;
 * `ApplyAll` plays them onto the picker's state.
 */
module MediaPicker {
  import opened Wrappers
  import opened MediaHelper
  import Decimal

  /** The maximum video size when the caller does not pass one: 2 MiB. */
  const DefaultMaxVideoSize: int := 2 * 1024 * 1024

  /** The maximum the create-event page passes: 5 MiB. */
  const CreateEventMaxVideoSize: int := 5 * 1024 * 1024

  const UnsupportedMessage: string := "Unsupported file type. Please upload image or video."
  const FallbackMessage: string := "Failed to process media."
  const AddLabel: string := "Add Photo"
  const ReplaceLabel: string := "Replace Photo"

  /** The parts of a chosen `File` the gate reads. */
  datatype File = File(mimeType: string, size: int)

  /** The staged media type: `''`, `'image'` or `'video'`. */
  datatype MediaKind = NoMedia | ImageMedia | VideoMedia

  /** A state call issued by the handler. */
  datatype Update =
    | SetMediaError(message: string)
    | MediaChange(preview: string, kind: MediaKind)

  /** The staged preview and type (held by the caller) and the card's error message. */
  datatype PickerState = PickerState(preview: string, kind: MediaKind, mediaError: string)

  /** How the browser would handle the chosen file on either path. */
  datatype Browser = Browser(image: ImageLoad, video: VideoLoad, jpeg: JpegEncoder)

  /** What one call of the handler did: its state updates and the pipeline's effects. */
  datatype Handled = Handled(updates: seq<Update>, effects: seq<Effect>)

  /** Where the gate sends a file. */
  datatype Route = ToImage | ToVideo | Refused(message: string)

  function Apply(s: PickerState, u: Update): PickerState {
    match u
    case SetMediaError(m) => s.(mediaError := m)
    case MediaChange(p, k) => s.(preview := p, kind := k)
  }

  function ApplyAll(s: PickerState, us: seq<Update>): PickerState
    decreases |us|
  {
    if |us| == 0 then s else ApplyAll(Apply(s, us[0]), us[1..])
  }

  /** The message of the error thrown for an oversize video. */
  function TooLargeMessage(maxVideoSize: int): string {
    "Video too large. Please select a file under " + Decimal.IntToString(maxVideoSize) + " bytes."
  }

  /** `err.message || 'Failed to process media.'` for a pipeline's rejection. */
  function ErrorMessage(e: ThumbError): (m: string)
    ensures m != ""
    ensures e.NoContext? && e.message != "" ==> m == e.message
    ensures !(e.NoContext? && e.message != "") ==> m == FallbackMessage
  {
    match e
    case NoContext(message) => if message == "" then FallbackMessage else message
    case _ => FallbackMessage
  }

  /** The gate: classification by declared type, and the strict size check on videos. */
  function Classify(mimeType: string, size: int, maxVideoSize: int): (r: Route)
    ensures r == ToImage <==> "image/" <= mimeType
    ensures r == ToVideo <==> !("image/" <= mimeType) && "video/" <= mimeType && size <= maxVideoSize
    ensures r.Refused? && "video/" <= mimeType && !("image/" <= mimeType) ==>
      r.message == TooLargeMessage(maxVideoSize)
    ensures r.Refused? && !("video/" <= mimeType) ==> r.message == UnsupportedMessage
  {
    if "image/" <= mimeType then ToImage
    else if "video/" <= mimeType then
      if size > maxVideoSize then Refused(TooLargeMessage(maxVideoSize)) else ToVideo
    else Refused(UnsupportedMessage)
  }

  /** The updates issued once a pipeline has settled, or the gate has refused. */
  function Settle(result: Result<string, string>, kind: MediaKind): seq<Update> {
    match result
    case Success(preview) => [SetMediaError(""), MediaChange(preview, kind)]
    case Failure(message) => [SetMediaError(""), SetMediaError(message), MediaChange("", NoMedia)]
  }

  /** The pipeline's settlement as the handler sees it: the data URL, or a message. */
  function Outcome(t: Trace): (r: Result<string, string>)
    ensures r.Failure? ==> r.error != ""
  {
    match t.result
    case Success(url) => Success(url)
    case Failure(e) => Failure(ErrorMessage(e))
  }

  /**
   * `handleFileChange`: the chosen file, if any, the configured maximum (the
   * default when the caller passes none), and the browser.
   */
  function HandleFileChange(file: Option<File>, maxVideoSize: int := DefaultMaxVideoSize, browser: Browser)
    : (h: Handled)
    ensures file.None? ==> h.updates == [] && h.effects == []
    ensures file.Some? ==> |h.updates| >= 2 && h.updates[0] == SetMediaError("")
    ensures file.Some? ==> h.updates[|h.updates| - 1].MediaChange?
    ensures file.Some? && Classify(file.value.mimeType, file.value.size, maxVideoSize).Refused? ==>
      h.effects == [] &&
      h.updates == [SetMediaError(""),
                    SetMediaError(Classify(file.value.mimeType, file.value.size, maxVideoSize).message),
                    MediaChange("", NoMedia)]
    ensures file.Some? && Classify(file.value.mimeType, file.value.size, maxVideoSize) == ToImage ==>
      h.effects == ResizeImageTo4by5(browser.image, browser.jpeg).effects
    ensures file.Some? && Classify(file.value.mimeType, file.value.size, maxVideoSize) == ToVideo ==>
      h.effects == GenerateVideoThumbnail(browser.video, browser.jpeg).effects
    ensures file.Some? && Classify(file.value.mimeType, file.value.size, maxVideoSize) == ToImage ==>
      h.updates == Settle(Outcome(ResizeImageTo4by5(browser.image, browser.jpeg)), ImageMedia)
    ensures file.Some? && Classify(file.value.mimeType, file.value.size, maxVideoSize) == ToVideo ==>
      h.updates == Settle(Outcome(GenerateVideoThumbnail(browser.video, browser.jpeg)), VideoMedia)
  {
    match file
    case None => Handled([], [])
    case Some(f) =>
      match Classify(f.mimeType, f.size, maxVideoSize)
      case ToImage =>
        var t := ResizeImageTo4by5(browser.image, browser.jpeg);
        Handled(Settle(Outcome(t), ImageMedia), t.effects)
      case ToVideo =>
        var t := GenerateVideoThumbnail(browser.video, browser.jpeg);
        Handled(Settle(Outcome(t), VideoMedia), t.effects)
      case Refused(message) =>
        Handled(Settle(Failure(message), NoMedia), [])
  }

  /** `isEmpty ? 'Add Photo' : 'Replace Photo'`. */
  function ButtonLabel(preview: string): string {
    if preview == "" then AddLabel else ReplaceLabel
  }

  // ---------------------------------------------------------------------------
  // Properties

  /** The button offers to add exactly when nothing is staged. */
  lemma ButtonLabelIff(preview: string)
    ensures ButtonLabel(preview) == AddLabel <==> preview == ""
    ensures ButtonLabel(preview) == ReplaceLabel <==> preview != ""
  {
  }

  /** No file chosen: the state is left exactly as it was. */
  lemma NoFileNoChange(s: PickerState, maxVideoSize: int, browser: Browser)
    ensures ApplyAll(s, HandleFileChange(None, maxVideoSize, browser).updates) == s
  {
  }

  /** The state after the updates of one settlement. */
  lemma SettleFinalState(s: PickerState, result: Result<string, string>, kind: MediaKind)
    ensures var s' := ApplyAll(s, Settle(result, kind));
      && (result.Success? ==> s' == PickerState(result.value, kind, ""))
      && (result.Failure? ==> s' == PickerState("", NoMedia, result.error))
  {
    var s1 := Apply(s, SetMediaError(""));
    match result
    case Success(preview) =>
      var us := [SetMediaError(""), MediaChange(preview, kind)];
      assert us[1..] == [MediaChange(preview, kind)] && us[1..][1..] == [];
      assert ApplyAll(s1, us[1..]) == ApplyAll(Apply(s1, us[1]), []);
      assert ApplyAll(s, us) == ApplyAll(s1, us[1..]);
    case Failure(message) =>
      var us := [SetMediaError(""), SetMediaError(message), MediaChange("", NoMedia)];
      var s2 := Apply(s1, SetMediaError(message));
      assert us[1..] == [SetMediaError(message), MediaChange("", NoMedia)];
      assert us[1..][1..] == [MediaChange("", NoMedia)] && us[1..][1..][1..] == [];
      assert ApplyAll(s2, us[1..][1..]) == ApplyAll(Apply(s2, us[2]), []);
      assert ApplyAll(s, us) == ApplyAll(s1, us[1..]) == ApplyAll(s2, us[1..][1..]);
  }

  /**
   * After handling a chosen file: either it was staged with the kind of the
   * branch taken and no error is shown, or the preview and type are cleared
   * and a message is shown. Success exactly when the gate admitted the file and
   * its pipeline resolved; the staged preview is then the pipeline's data URL,
   * and the message of a failure is the gate's or the rejection's.
   */
  lemma HandledFinalState(s: PickerState, f: File, maxVideoSize: int, browser: Browser)
    ensures var s' := ApplyAll(s, HandleFileChange(Some(f), maxVideoSize, browser).updates);
      var route := Classify(f.mimeType, f.size, maxVideoSize);
      var image := ResizeImageTo4by5(browser.image, browser.jpeg);
      var video := GenerateVideoThumbnail(browser.video, browser.jpeg);
      var ok := (route == ToImage && image.result.Success?) || (route == ToVideo && video.result.Success?);
      && (ok ==> s'.mediaError == "" && s'.preview != "" && ButtonLabel(s'.preview) == ReplaceLabel)
      && (ok && route == ToImage ==> s' == PickerState(image.result.value, ImageMedia, ""))
      && (ok && route == ToVideo ==> s' == PickerState(video.result.value, VideoMedia, ""))
      && (!ok ==> s'.mediaError != "" && s'.preview == "" && s'.kind == NoMedia)
      && (!ok ==> ButtonLabel(s'.preview) == AddLabel)
      && (route.Refused? ==> s'.mediaError == route.message)
      && (route == ToImage && image.result.Failure? ==> s'.mediaError == ErrorMessage(image.result.error))
      && (route == ToVideo && video.result.Failure? ==> s'.mediaError == ErrorMessage(video.result.error))
  {
    match Classify(f.mimeType, f.size, maxVideoSize)
    case ToImage =>
      SettleFinalState(s, Outcome(ResizeImageTo4by5(browser.image, browser.jpeg)), ImageMedia);
    case ToVideo =>
      SettleFinalState(s, Outcome(GenerateVideoThumbnail(browser.video, browser.jpeg)), VideoMedia);
    case Refused(message) =>
      SettleFinalState(s, Failure(message), NoMedia);
  }

  /** An image is routed to the image pipeline whatever its size and the maximum. */
  lemma ImagesIgnoreSize(mimeType: string, size: int, maxVideoSize: int)
    requires "image/" <= mimeType
    ensures Classify(mimeType, size, maxVideoSize) == ToImage
  {
  }

  /**
   * The size check is strict: a video exactly at the maximum is admitted, one
   * byte more is refused, and a refused video creates no object URL.
   */
  lemma VideoSizeBoundary(mimeType: string, maxVideoSize: int, browser: Browser)
    requires "video/" <= mimeType && !("image/" <= mimeType)
    ensures Classify(mimeType, maxVideoSize, maxVideoSize) == ToVideo
    ensures Classify(mimeType, maxVideoSize + 1, maxVideoSize) == Refused(TooLargeMessage(maxVideoSize))
    ensures HandleFileChange(Some(File(mimeType, maxVideoSize + 1)), maxVideoSize, browser).effects == []
  {
  }

  /** Raising the maximum never turns an admitted video away. */
  lemma AdmissionMonotone(mimeType: string, size: int, m1: int, m2: int)
    requires m1 <= m2
    requires Classify(mimeType, size, m1) == ToVideo
    ensures Classify(mimeType, size, m2) == ToVideo
  {
  }

  /** Different maxima give different oversize messages. */
  lemma TooLargeMessageNamesMaximum(m1: int, m2: int)
    requires TooLargeMessage(m1) == TooLargeMessage(m2)
    ensures m1 == m2
  {
    var prefix := "Video too large. Please select a file under ";
    var suffix := " bytes.";
    var a, b := Decimal.IntToString(m1), Decimal.IntToString(m2);
    assert TooLargeMessage(m1) == prefix + a + suffix;
    assert TooLargeMessage(m2) == prefix + b + suffix;
    assert a == TooLargeMessage(m1)[|prefix|..|TooLargeMessage(m1)| - |suffix|];
    assert b == TooLargeMessage(m2)[|prefix|..|TooLargeMessage(m2)| - |suffix|];
    Decimal.IntToStringInjective(m1, m2);
  }

  /** The two configured maxima, in bytes. */
  lemma ConfiguredMaxima()
    ensures DefaultMaxVideoSize == 2097152
    ensures CreateEventMaxVideoSize == 5242880
  {
  }

  /** A picker given no maximum admits videos up to 2097152 bytes. */
  lemma OmittedMaximumIsDefault(f: File, browser: Browser)
    ensures HandleFileChange(Some(f), browser := browser) == HandleFileChange(Some(f), 2097152, browser)
  {
  }

  /**
   * A 6 MiB video is refused under the default maximum; a 3 MiB video is
   * refused under the default but admitted on the create-event page.
   */
  lemma MaximaExamples()
    ensures Classify("video/mp4", 6 * 1024 * 1024, DefaultMaxVideoSize).Refused?
    ensures Classify("video/mp4", 3 * 1024 * 1024, DefaultMaxVideoSize).Refused?
    ensures Classify("video/mp4", 3 * 1024 * 1024, CreateEventMaxVideoSize) == ToVideo
  {
    assert "video/" <= "video/mp4";
    assert "image/"[0] != "video/mp4"[0];
  }
}
