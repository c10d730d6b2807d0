# Media thumbnails, upload gate and event list — a Dafny model

This project models the three pieces of pure logic inside an event-discovery web
app. The app lets users browse community events and create new ones with an
uploaded picture.

- **Thumbnail geometry and pipelines** (`src/utils/mediaHelper.ts`). An uploaded
  image, or the first frame of an uploaded video, is drawn on a fixed 400 × 500
  canvas in two passes. First comes a blurred "cover" background, which fills the
  canvas and crops the overflow. Then comes a sharp "contain" foreground, which
  fits the whole source inside the canvas, centred. The canvas is then encoded as
  a JPEG data URL at quality 0.8. The video path holds a temporary object URL,
  which it must release on every exit.
- **Upload gate** (`src/components/MediaPicker.tsx`, `handleFileChange`). A MIME
  type starting `image/` goes to the image pipeline. A type starting `video/` goes
  to the video pipeline if its size does not exceed the configured maximum: 2 MiB
  by default, 5 MiB on the create-event page. Anything else is refused. Every
  failure sets an error message and clears the staged preview and media type.
- **Event list** (`src/store/eventStore.ts`). `addEvent` appends a draft under a
  freshly generated id. `removeEvent` keeps every event whose id differs.

Modules, one per concern:

- `Geometry` (geometry.dfy): sizes, rectangles, and the image and video copies of
  the cover and contain passes over exact reals. It also holds the constant
  dimension policy. Each pass is related to a reference definition: the source
  scaled uniformly and centred, at scale max(cw/w, ch/h) for cover and
  min(cw/w, ch/h) for contain.
- `Canvas` (canvas.dfy): the part of a 2D context the code touches. That is the
  `filter` property, the `save`/`restore` stack, and `drawImage` calls, each
  recorded as a destination rectangle with the filter in effect.
- `MediaHelper` (media_helper.dfy): the two draw passes as lists of context calls,
  and the image and video pipelines. Each pipeline run is a trace: the effects it
  issued (object URL created or revoked, canvas calls, JPEG encode) and how its
  promise settled.
- `Decimal` (decimal.dfy): the template-literal rendering of the maximum in the
  "Video too large" message, with its read-back function.
- `MediaPicker` (media_picker.dfy): classification, the strict size check, the
  error messages, the ordered state updates of the handler, and the button label.
- `EventStore` (event_store.dfy): the `Event` record, `addEvent`, `removeEvent`.
- `Wrappers` (wrappers.dfy): `Option` and `Result`.

The browser is a parameter. How the file read, image decode, video load and seek,
and `getContext('2d')` turned out is an input value (`ImageLoad`, `VideoLoad`).
The JPEG encoder is an input function. The id generator is the id it produced,
passed to `AddEvent`.

`Geometry.Cover` is proved to cover the canvas in both branches: no part of the
canvas is left unpainted by the background pass. The read, image-decode and
video-error callbacks reject with a DOM event that has no `message`, so the
handler shows "Failed to process media." for all three.

## Model

| member | source | states |
|---|---|---|
| Geometry.Cover | src/utils/mediaHelper.ts:57-77 | The background rectangle covers the whole canvas (x ≤ 0, y ≤ 0, right and bottom edges at or past the canvas). It keeps the source's aspect ratio, is centred on both axes, and equals the canvas on one axis. |
| Geometry.Contain | src/utils/mediaHelper.ts:97-112 | The foreground rectangle lies inside [0, cw] × [0, ch]. It keeps the source's aspect ratio, is centred on both axes, and equals the canvas on one axis. |
| Geometry.CoverIsScaledByMax | src/utils/mediaHelper.ts:57-75 | The cover pass is the source scaled by max(cw/w, ch/h), then centred. |
| Geometry.ContainIsScaledByMin | src/utils/mediaHelper.ts:97-110 | The contain pass is the source scaled by min(cw/w, ch/h), then centred. |
| Geometry.CoverScaleIsLeast | src/utils/mediaHelper.ts:65-75 | For any positive scale, the source scaled by it and centred covers the canvas exactly when the scale is at least max(cw/w, ch/h). So the cover pass uses the smallest uniform scale that covers. |
| Geometry.ContainScaleIsGreatest | src/utils/mediaHelper.ts:101-110 | For any positive scale, the source scaled by it and centred fits inside the canvas exactly when the scale is at most min(cw/w, ch/h). So the contain pass uses the largest uniform scale that fits. |
| Geometry.PinnedAxes | src/utils/mediaHelper.ts:65-107 | When the source is relatively wider than the canvas, cover pins the height (y = 0) and contain pins the width (x = 0). Otherwise cover pins the width (x = 0) and contain pins the height (y = 0). |
| Geometry.ContainWithinCover | src/utils/mediaHelper.ts:143-146 | The sharp foreground always lies within the blurred background drawn beneath it. |
| Geometry.SameShapeFillsExactly | src/utils/mediaHelper.ts:65-110 | A source with the canvas's own aspect ratio is drawn as exactly the canvas by both passes. |
| Geometry.CoverVideoMatchesImage | src/utils/mediaHelper.ts:223-253 | The video background pass computes the same rectangle as the image background pass. |
| Geometry.ContainVideoMatchesImage | src/utils/mediaHelper.ts:264-289 | The video foreground pass computes the same rectangle as the image one. Its zero offset on the pinned axis equals the image copy's (canvasDim − canvasDim)/2. |
| Geometry.Compute4by5Dimensions | src/utils/mediaHelper.ts:30-36 | The target canvas has width:height exactly 4:5. |
| Geometry.DimensionsIgnoreSource | src/utils/mediaHelper.ts:30-36 | The policy ignores its inputs: every source gets the same 400 × 500 canvas. |
| Geometry.PortraitExample | src/utils/mediaHelper.ts:65-110 | A 1000 × 2000 source gets a 400 × 800 background at y = −150 and a 250 × 500 foreground at x = 75. |
| Canvas.ScopedRestores | src/utils/mediaHelper.ts:54-79 | Any filter set between a `save()` and its `restore()` is gone afterwards: the drawing state is what it was before the pair. |
| Canvas.StrokesAppend | src/utils/mediaHelper.ts:143-146 | The draws of two call sequences issued one after the other are the first's draws, then the second's under the state the first left. |
| MediaHelper.DrawBlurredCoverBackground | src/utils/mediaHelper.ts:48-80 | From any drawing state, the background pass draws the cover rectangle once, under a 20 px blur, and leaves the state unchanged. |
| MediaHelper.DrawImageContain | src/utils/mediaHelper.ts:91-113 | The foreground pass draws the contain rectangle once, under whatever filter is current. It sets no filter of its own and leaves the drawing state unchanged. |
| MediaHelper.DrawBlurredCoverBackgroundVideo | src/utils/mediaHelper.ts:223-253 | The video background pass issues the same context calls as the image background pass. |
| MediaHelper.DrawImageContainVideo | src/utils/mediaHelper.ts:264-289 | The video foreground pass issues the same context calls as the image foreground pass. |
| MediaHelper.CompositeOrder | src/utils/mediaHelper.ts:142-146 | On a fresh context the blurred cover draw comes first and the contain draw second. The contain draw is unfiltered, and the context ends as it started. |
| MediaHelper.ResizeImageTo4by5 | src/utils/mediaHelper.ts:121-155 | The image pipeline never touches object URLs. It resolves exactly when the image decoded and a context was obtained. A read failure, decode failure or missing context rejects with the matching error and draws nothing. On success it draws blurred cover then sharp contain on a 400 × 500 canvas and encodes last, at quality 0.8. The resolved data URL is the encoding of exactly the calls it painted. |
| MediaHelper.GenerateVideoThumbnail | src/utils/mediaHelper.ts:164-211 | On every exit path the object URL is created first and revoked last, with only canvas work and encoding in between. It resolves exactly when the frame at time 0 was seeked and a context was obtained. A video error or missing context rejects with the matching error. On success the resolved data URL is the encoding of exactly the calls it painted. |
| MediaHelper.VideoFrameDrawn | src/utils/mediaHelper.ts:178-204 | The seeked path draws the same two strokes as the image path, encodes, then revokes the URL before resolving with the encoding of exactly those calls. |
| MediaHelper.VideoWrapsImage | src/utils/mediaHelper.ts:164-211 | With a context, the video run's effects are the image run's effects for the same size, preceded by the object URL's creation and followed by its revocation, and it settles the same way. |
| MediaHelper.VideoMatchesImage | src/utils/mediaHelper.ts:178-203 | A video frame and an image of the same size give the same canvas calls and, for the same encoder, the same data URL. |
| Decimal.NatToString | src/components/MediaPicker.tsx:66 | The rendering of a non-negative number is a non-empty string of digits with no leading zero. |
| Decimal.ValueOfNatToString | src/components/MediaPicker.tsx:66 | Reading back the rendered digits gives the number. |
| Decimal.IntToStringInjective | src/components/MediaPicker.tsx:66 | Different numbers render to different strings. |
| MediaPicker.ErrorMessage | src/components/MediaPicker.tsx:76 | The displayed message is never empty. A rejection that carries a message shows that message; the others show the fallback. |
| MediaPicker.Classify | src/components/MediaPicker.tsx:58-74 | A type starting `image/` goes to the image path. A type starting `video/` (and not `image/`) goes to the video path exactly when size ≤ maximum, and is otherwise refused with the too-large message naming the maximum. Any other type is refused with the unsupported-type message. |
| MediaPicker.HandleFileChange | src/components/MediaPicker.tsx:51-79 | No file: no updates and no effects. With a file: the first update clears the error and the last sets preview and type. A refused file triggers no pipeline and no object URL, and its updates set the message and clear preview and type. An admitted file's effects are exactly its pipeline's. Its updates are those of the settled pipeline: on resolution, clear the error and stage the data URL under the branch's kind; on rejection, clear the error, set the rejection's displayed message, then clear preview and type. |
| MediaPicker.ButtonLabelIff | src/components/MediaPicker.tsx:81-83 | The label is "Add Photo" exactly when the preview is empty, and "Replace Photo" exactly when it is not. |
| MediaPicker.NoFileNoChange | src/components/MediaPicker.tsx:52-53 | When no file is chosen the picker state is left exactly as it was. |
| MediaPicker.SettleFinalState | src/components/MediaPicker.tsx:55-78 | After a success, the preview and type are the pipeline's and the error is empty. After a failure, preview and type are cleared and the error is the failure's message. |
| MediaPicker.HandledFinalState | src/components/MediaPicker.tsx:51-79 | After handling a file, either it was admitted and its pipeline resolved: a non-empty preview of the branch's kind is staged, no error shows, and the button reads "Replace Photo". The staged preview is exactly the pipeline's data URL. Or the preview and type are cleared, a non-empty error shows, and the button reads "Add Photo". That error is the gate's message for a refused file, and the rejection's displayed message for a failed pipeline. |
| MediaPicker.ImagesIgnoreSize | src/components/MediaPicker.tsx:58-61 | An `image/` type goes to the image path whatever the file size and the maximum. |
| MediaPicker.VideoSizeBoundary | src/components/MediaPicker.tsx:62-70 | A video exactly at the maximum is admitted. One byte over is refused with the too-large message, with no effect at all, so no object URL is created. |
| MediaPicker.AdmissionMonotone | src/components/MediaPicker.tsx:64 | Raising the maximum never turns an admitted video away. |
| MediaPicker.TooLargeMessageNamesMaximum | src/components/MediaPicker.tsx:65-67 | The too-large message determines the maximum it was built from. |
| MediaPicker.ConfiguredMaxima | src/components/MediaPicker.tsx:32 | The default maximum is 2·1024·1024 = 2097152 bytes. The create-event override is 5·1024·1024 = 5242880 bytes. |
| MediaPicker.OmittedMaximumIsDefault | src/components/MediaPicker.tsx:32 | A handler call that passes no maximum behaves exactly as one passing 2097152 bytes. |
| MediaPicker.MaximaExamples | src/pages/CreateEvent.tsx:143 | A 6 MiB video is refused under the default maximum. A 3 MiB video is refused under the default and admitted under the create-event maximum. |
| EventStore.AddEvent | src/store/eventStore.ts:70-73 | The list grows by exactly one. The earlier events are unchanged and in order. The new last event carries the generated id and every supplied field unchanged. The id set gains exactly the new id. |
| EventStore.Without | src/store/eventStore.ts:82 | An event is kept exactly when it was present and its id differs. When no event carries the id, the list is unchanged. |
| EventStore.WithoutIsSubsequence | src/store/eventStore.ts:82 | The kept events are a subsequence of the original list: their relative order is preserved. |
| EventStore.WithoutMultiset | src/store/eventStore.ts:82 | Every event whose id differs is kept as many times as it occurred. Events with the id are not kept at all. |
| EventStore.RemoveEvent | src/store/eventStore.ts:80-83 | No event with the id remains. Every other event remains as many times as it occurred, and the result is a subsequence of the original. |
| EventStore.DraftRoundTrip | src/store/eventStore.ts:72 | Adding an id to a draft and stripping it again gives back the draft, and the reverse holds for events. |
| EventStore.WithoutAppend | src/store/eventStore.ts:82 | Filtering a concatenation is concatenating the filtered parts, so relative order is preserved. |
| EventStore.RemoveAbsentId | src/store/eventStore.ts:82 | Removing an id that no event carries leaves the store unchanged. |
| EventStore.RemoveIdempotent | src/store/eventStore.ts:80-83 | Removing the same id twice is removing it once. |
| EventStore.RemoveCount | src/store/eventStore.ts:82 | The list shrinks by exactly the number of entries that carry the id. |
| EventStore.RemoveCommutes | src/store/eventStore.ts:80-83 | Removals of two ids give the same list in either order. |
| EventStore.AddThenRemove | src/store/eventStore.ts:70-83 | With an id not already in use, adding an event and removing that id restores the original store. |
| EventStore.AddKeepsIdsUnique | src/store/eventStore.ts:25-30 | If ids are unique and the generated id is fresh, ids stay unique after `addEvent`. |
| EventStore.RemoveKeepsIdsUnique | src/store/eventStore.ts:80-83 | `removeEvent` keeps ids unique. |

## Left out

- File reading, image and video element loading, the seek to time 0, `getContext('2d')` and `toDataURL` are not modelled. They are browser APIs, so their outcomes are inputs and the JPEG payload comes from an opaque encoder function.
- `toDataURL` is assumed to honour `'image/jpeg'`: the data URL is modelled as the JPEG prefix followed by the encoder's output. A browser that falls back to a PNG data URL is not modelled.
- The blur filter's pixels are not modelled. A draw is recorded as its rectangle and the filter in effect.
- Callback and promise sequencing is not modelled. The model assumes exactly one of the video element's `seeked` or `error` callbacks fires. A video that never fires either leaves its promise unsettled and its URL unrevoked, and the model does not cover that. Neither does it cover a callback firing after the promise has settled.
- The `console.log` in the dimension policy is not modelled.
- Geometry.Cover: exact reals stand in for IEEE-754 doubles, so rounding is not modelled. Source dimensions are strictly positive by type. With a zero width or height the source divides by zero and draws with NaN or Infinity, and the model does not cover that case.
- MediaPicker.TooLargeMessage: the maximum is an integer. A number at or above 10^21 would render in exponent notation, and a fractional one with a decimal point; the model covers neither.
- React rendering is not modelled: the preview `<img>`, the error paragraph, and the hidden input opened by `handleButtonClick`. The ordered list of state updates stands in for React's batching.
- `uuid()`, zustand `persist` with localStorage, and `defaultEvents` are left out. They are external libraries, and `defaultEvents` is not part of this model.
- The create-event form wiring, the Leaflet map and the reverse-geocoding `fetch` are left out as UI and network code. So are the event list page, the cards with their date formatting and clock comparison, the error boundary, the navigation bar and routing.
