# ffmpeg watermark demo: the editor's coordination layer in Dafny

The demo is a browser page. The user loads a video and picks a time range
with a two-handle slider on a 0..100 scale. They also pick a watermark
image and set its transparence (1..100 %) and scale (1..1000 %). The page
then asks the ffmpeg.wasm engine either to export a trimmed, watermarked
`output.mp4` or to render the first composited frame to `first_frame.png`.
All of this logic lives in `src/components/VideoEditor.tsx`. This project
models it in five modules:

- `Decimal`: `(n / 100).toFixed(2)` for the integer form fields, over `nat`.
  The module also has a reader (`ScanPercent`, `ParsePercent`) for the
  rendered text, used to prove that the rendering is exact.
- `Timeline`: the intended slider-to-seconds mapping (`duration * v / 100`).
  It also holds the clamp rule: the list of seeks the clamp effect issues
  for a playback position and a window.
- `Command`: the export and preview argument lists, exactly as the source
  writes them. Beside them is a reference reader (`Interpret`) that gives a
  flattened reading of an argv: inputs in order, one value per option, the
  `-y` switch, output files. ffmpeg itself ties each option to the next
  input or output file and adds one graph per `-filter_complex`; for the two
  argvs here, where every option appears once after both inputs and before
  the single output, the flattened reading says the same. A reader for the filter graph
  (`ParseFilterGraph`) is there as well.
- `Editor`: the class `VideoEditor`. Its fields are the component's React
  state and form values. Its methods are the handlers and effects, each run
  as one atomic step. The engine is a log of `EngineCall`s, and the video
  player is a log of `seeks`.
- `Wrappers`: `Option`.

Parameters stand in for the parts of the program the model cannot see:

- `toTime`: `sliderValueToVideoTime`. It is imported from
  `src/utils/utils`, which is not part of this model.
  `Timeline.IntendedTime` is the mapping it is meant to be, and the window
  lemmas are stated over it.
- `render`: JavaScript's rendering of a number in `${minTime}`.
- `run: EngineRun`: how the engine answers one action. Either every call
  resolves, or the call with a given index rejects.

The UI rules for when a widget is available are predicates of the class:

- `Spinning` (src/components/VideoEditor.tsx:142-144): the antd `Spin`
  mask covers the editor while processing or while the engine is not loaded.
- `FormShown` (src/components/VideoEditor.tsx:147, :164): the player and
  the form exist only while a video is selected.
- `UploadShown` (src/components/VideoEditor.tsx:157 with
  src/components/VideoUpload.tsx:15-37): the upload button exists only
  without a video, the remove button only with one.
- `SliderEnabled` (src/components/VideoEditor.tsx:168): the slider is
  disabled without a player state.
- `ActionsShown` (src/components/VideoEditor.tsx:201-204): export and
  preview are offered only with a video and a non-empty watermark file name.
- `ActionsAvailable` (src/components/VideoEditor.tsx:201-204): `ActionsShown`
  and not `Spinning`.

Each user handler requires its widget to be shown and not masked. The
player callbacks only require that the player is mounted.

Behaviour of the code that the model keeps:

- An engine failure does not clear the busy flag. Neither action has a
  `catch` or `finally`. After a rejected call `processing` stays true, the
  mask stays up, and no action can be started again.
- A missing player state does not stop export before the engine is used.
  `mergeWatermark` writes both files first, then throws while reading
  `videoPlayerState!.duration`. That leaves the editor busy.
- The slider values are not clamped by the editor. Their bounds and their
  order come from the slider widget, so `MoveSlider` requires them.
- The clamp's guard is the presence of the player reference and the player
  state. The form instance from `Form.useForm` is always present, so its
  test is always true.
- The range is not checked against a known duration. The clamp and the
  export read the duration of whatever player state was last reported, and
  neither checks that it is known.

## Model

| member | source | states |
|---|---|---|
| `Decimal.NatToString` | src/components/VideoEditor.tsx:57 | the integer part is a non-empty run of digits with no leading zero |
| `Decimal.NatToStringRoundTrip` | src/components/VideoEditor.tsx:57 | the integer numeral denotes exactly the integer rendered |
| `Decimal.Percent` | src/components/VideoEditor.tsx:57 | digits, a point, then exactly two fractional digits |
| `Decimal.ScanPercentRoundTrip` | src/components/VideoEditor.tsx:57 | the rendering of n, followed by any non-digit text, reads back as n hundredths plus that text |
| `Decimal.PercentRoundTrip` | src/components/VideoEditor.tsx:88 | the rendering of n reads back as exactly n hundredths, so it equals n / 100 with two decimals |
| `Decimal.PercentInjective` | src/components/VideoEditor.tsx:57 | different field values never render to the same text |
| `Decimal.PercentWidth` | src/components/VideoEditor.tsx:180-183 | inside the field bounds the text is `d.dd`, and `10.00` for 1000 |
| `Decimal.PercentExamples` | src/components/VideoEditor.tsx:57 | 50 gives "0.50", 1 gives "0.01", 100 gives "1.00", 200 gives "2.00", 1000 gives "10.00" |
| `Timeline.IntendedTime` | src/components/VideoEditor.tsx:48-49 | a slider value in 0..100 maps into [0, duration]; 0 maps to 0 and 100 to the duration |
| `Timeline.WindowFromSlider` | src/components/VideoEditor.tsx:116-118 | an ordered slider gives 0 <= minTime <= maxTime <= duration |
| `Timeline.ClampSeeks` | src/components/VideoEditor.tsx:120-126 | every seek targets minTime; no seek exactly when minTime <= position <= maxTime, both bounds inclusive; at most one seek for a well-formed window |
| `Timeline.ClampLandsInWindow` | src/components/VideoEditor.tsx:116-126 | after the clamp's seeks the position lies in [minTime, maxTime] |
| `Timeline.ClampIdempotent` | src/components/VideoEditor.tsx:120-126 | clamping again after the clamp issues no seek |
| `Timeline.ClampMovesOnlyOutside` | src/components/VideoEditor.tsx:120-126 | the position changes only when it was outside the window |
| `Timeline.ClampWithinVideo` | src/components/VideoEditor.tsx:112-128 | with the intended mapping the clamped position lies in the selected part of the video |
| `Timeline.ClampExamples` | src/components/VideoEditor.tsx:120-126 | for (20, 80) of a 100 s video: 10 and 85 seek to 20; 20, 50 and 80 do not seek |
| `Command.TemplateRoundTrip` | src/components/VideoEditor.tsx:57 | two renderings separated by non-digit text read back as the two values |
| `Command.FilterGraphRoundTrip` | src/components/VideoEditor.tsx:57 | the transparence and scale are read back out of the filter graph |
| `Command.FilterGraphInjective` | src/components/VideoEditor.tsx:88 | different overlay settings give different filter graphs |
| `Command.FilterGraphExample` | src/components/VideoEditor.tsx:57 | 50 % and 100 % give the graph with `aa=0.50` and `scale=iw*1.00` |
| `Command.ExportMeaning` | src/components/VideoEditor.tsx:54-62 | inputs input.mp4 then watermark.jpg, the overlay graph, audio copy, preset ultrafast, `-ss` start, `-to` end, overwrite, sole output output.mp4, no frame limit |
| `Command.PreviewMeaning` | src/components/VideoEditor.tsx:85-90 | the same inputs and graph, no audio codec, preset, trim or overwrite, one frame, sole output first_frame.png |
| `Command.ExportAndPreviewShareGraph` | src/components/VideoEditor.tsx:85-90 | both argvs begin with the same six arguments and differ only in the tail |
| `Editor.CommitNumber` | src/components/VideoEditor.tsx:179-184 | the committed value is inside the input's bounds and is the bound value closest to the typed number |
| `Editor.VideoEditor.constructor` | src/components/VideoEditor.tsx:20-32 | form values transparence 50, slider (0, 100), scale 100; no video, player or state; empty watermark name; not processing |
| `Editor.VideoEditor.ClampEffect` | src/components/VideoEditor.tsx:112-128 | with a player and a state, appends exactly the clamp's seeks for the slider window; otherwise seeks nothing |
| `Editor.VideoEditor.ResetEffect` | src/components/VideoEditor.tsx:130-138 | without a video, clears the player state and sets the slider to (0, 100); otherwise changes nothing |
| `Editor.VideoEditor.SelectVideo` | src/components/VideoEditor.tsx:156-158 | selects a video and leaves the form and the player state as they were |
| `Editor.VideoEditor.RemoveVideo` | src/components/VideoEditor.tsx:159-161 | no video, no player state, slider (0, 100); transparence, scale and watermark name unchanged |
| `Editor.VideoEditor.SetPlayer` | src/components/VideoEditor.tsx:148-152 | records the player reference and reruns the clamp |
| `Editor.VideoEditor.SetPlayerState` | src/components/VideoEditor.tsx:148-152 | records the new state and reruns the clamp against it |
| `Editor.VideoEditor.MoveSlider` | src/components/VideoEditor.tsx:166-178 | stores both handles; seeks once, to the time of the lower handle, and only when the player exists |
| `Editor.VideoEditor.EnterTransparence` | src/components/VideoEditor.tsx:179-181 | stores the committed transparence, nothing else |
| `Editor.VideoEditor.EnterScale` | src/components/VideoEditor.tsx:182-184 | stores the committed scale, nothing else |
| `Editor.VideoEditor.SelectWatermark` | src/components/VideoEditor.tsx:106-110 | stores the chosen image's file name |
| `Editor.ActionCallsSplit` | src/components/VideoEditor.tsx:42-64 | the calls an action issues are its two writes, cut at a rejection, followed by the exec and read it reaches |
| `Editor.VideoEditor.WriteInputs` | src/components/VideoEditor.tsx:42-45 | writes input.mp4 then watermark.jpg, stopping at a rejected write; reports whether both resolved |
| `Editor.VideoEditor.ExecAndRead` | src/components/VideoEditor.tsx:54-64 | runs the argv then reads the output file, stopping at a rejected call; reports whether both resolved |
| `Editor.VideoEditor.MergeWatermark` | src/components/VideoEditor.tsx:37-73 | calls, in order: write input.mp4, write watermark.jpg, exec the export argv, read output.mp4, cut after a rejected call; stops after the writes without a player state; busy afterwards unless all four calls resolved |
| `Editor.VideoEditor.PreviewFirstFrame` | src/components/VideoEditor.tsx:75-104 | the same order with the preview argv and first_frame.png; always busy afterwards; the modal opens exactly when all four calls resolved |
| `Editor.VideoEditor.ClosePreview` | src/components/VideoEditor.tsx:94-103 | OK or Cancel on the modal closes it and clears the busy flag |

## Left out

- The ffmpeg engine: what `writeFile`, `exec` and `readFile` do with bytes, and `fetchFile`. The engine is a log of calls, and `EngineRun` decides which call rejects. In the engine's API a non-zero exit code resolves `exec` rather than rejecting it; that distinction is not modelled.
- Browser output: `URL.createObjectURL`, `Blob` and its MIME type, the `result.mp4` download, and the `Modal` and `Image` display. The modal is only a flag.
- `sliderValueToVideoTime` (src/utils/utils is not part of this model) and JavaScript number-to-string rendering of the trim bounds. Both are parameters.
- React effect scheduling and async interleaving. Each handler, and each handler followed by the effects it triggers, is one atomic step.
- `handleSelectWatermarkImage` throwing when the file dialog yields no file. The image bytes behind `imageRef` are also left out.
- The form's fields before the `Form` first mounts, and an emptied number input (`null`). The model starts from the initial values and keeps each field inside its bounds.
- src/App.tsx (engine loading from CDN, log and progress handlers), src/components/VideoPlayer.tsx, src/components/VideoUpload.tsx and src/vite-env.d.ts: bootstrap and widget wiring. From them the model keeps only which of the upload and remove buttons is shown. The constructor takes the `ffmpegLoaded` prop as given: src/App.tsx:50 mounts the editor only once the engine is loaded, so there it is always true, and the `!ffmpegLoaded` part of `Spinning` models the editor's own guard at src/components/VideoEditor.tsx:143-144, which that mount never reaches.
- A player state reported before its duration is known: a media element's duration is NaN until its metadata loads, and the trim bounds would then render as NaN. The model's duration, and every `toTime` result, is always a real number.
- Decimal.Percent: models `toFixed(2)` on the exact quotient n / 100. This is exact for the form's bounds. It is not exact for integers beyond double precision or for negative ones.
- Editor.CommitNumber: models the number input as committing the closest in-bounds value. Typing states before commit are not modelled. The inputs set no `precision`, so they also accept non-integer entries such as 50.5, whose `toFixed(2)` rounds a binary fraction; those are not modelled, and transparence and scale are taken to be integers.
