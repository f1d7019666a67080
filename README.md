# Webpage to PDF/JPEG Converter — a Dafny model of its core

The extension captures a whole web page as an image and lets the user export
it as JPEG and/or PDF, optionally with a URL header drawn above the image. It
runs in three contexts:

- the **click handler** (`background.js`): refuses browser-internal pages,
  sends the capture command to the page, injects the rendering library and
  the capture agent and retries once if nobody answered, then opens a review
  tab and hands the capture over through an `onUpdated` listener that removes
  itself on first use, or alerts;
- the **capture agent** (`content.js`): answers the capture command once,
  with the captured image or a prefixed error, measuring the page height as
  the largest of five size signals and putting the scroll position back after
  a successful capture;
- the **review page** (`dashboard.js`): stores the delivered capture,
  enables the export buttons, renders the preview (canvas size, URL header
  truncated with an ellipsis), reports status, and derives export filenames
  from the page title and the clock.

Modules:

| file | module | models |
|---|---|---|
| `messages.dfy` | `Messages` | the capture command, the agent's reply, the `displayCapture` envelope |
| `traces.dfy` | `Traces` | counting events in an effect trace |
| `filename.dfy` | `Filename` | `generateFilename` (pure string work) |
| `preview.dfy` | `Preview` | canvas geometry of `updatePreview`; the truncation loop of `drawUrlHeader` as a method proved against a specification function |
| `review.dfy` | `Review` | the review page's module state as the class `ReviewPage`: the message handler, `updatePreview`, `showStatus`, copy and the three save actions, with an effect log |
| `controller.dfy` | `Controller` | the click handler as the specification function `Click` over browser outcomes, plus the class `ClickSession` for the one-shot listener |
| `agent.dfy` | `Agent` | `captureFullPage` and the message listener on the class `Page` (scroll position, replies sent) |
| `endtoend.dfy` | `EndToEnd` | properties across the three contexts |

Browser facilities are parameters: every `chrome.*` call of the click
handler is an outcome (`Controller.Outcomes`), the raster capture and the
image encoding are outcomes of the agent, text width is a function
`measure: string -> int`, the image decode is an outcome (`Review.ImageLoad`),
and the ISO clock reading of `new Date().toISOString()` is a string argument.
Timers (`setTimeout`) are events in the traces, not time.

Where the extension's design description and the code disagree, the model
follows the code:

- `"Hello: World/Test"` becomes `Hello_WorldTest`, not `Hello_World_Test`:
  the colon and slash are removed before whitespace is collapsed, so only
  the space after the colon becomes `_` (`Filename.HelloWorldExample`).
- A whitespace-only title becomes `_`, not `webpage`; only a title made
  entirely of removed characters (or empty) falls back to `webpage`
  (`Filename.WhitespaceTitleIsUnderscore`, `Filename.FallbackIffAllIllegal`).
- The scroll position is restored only after a successful raster capture
  (and before encoding, so an encoding failure still restores it), and the
  horizontal position becomes 0 rather than its old value; a missing library
  or a failed capture leaves the page as it was (`Agent.Page.CaptureFullPage`).
- The capture agent shows no progress overlay and has no layout-settle delay.
- "Save both" always ends with the "both saved" success status: each sub-save
  catches its own error, so the combined handler's error branch cannot be
  reached. A download request is made only by a sub-save that gets as far as
  the download call, so "save both" makes zero, one or two requests
  (`Review.SaveBothRequestsInOrder`).

## Model

| member | source | states |
|---|---|---|
| `Filename.StripIllegal` | dashboard.js:252 | the result has none of `< > : " / \ \| ? *` and is no longer than the title |
| `Filename.StripAppend` | dashboard.js:252 | removal works character by character: it distributes over concatenation |
| `Filename.StripKeepsLegal` | dashboard.js:252 | a string with none of the removed characters is unchanged |
| `Filename.StripEmptyIff` | dashboard.js:252 | removal leaves nothing exactly when every character was a removed one |
| `Filename.CollapseSpaces` | dashboard.js:253 | collapsing never lengthens the text and leaves it empty exactly when it was empty |
| `Filename.CollapseRemovesSpaces` | dashboard.js:253 | no whitespace remains after collapsing |
| `Filename.CollapseKeepsLegal` | dashboard.js:252-253 | collapsing adds none of the removed characters |
| `Filename.RunCollapses` | dashboard.js:253 | a non-empty whitespace run at the front, whatever its length, becomes exactly one `_` and the rest collapses on its own |
| `Filename.CollapseKeepsSpaceless` | dashboard.js:253 | a string without whitespace is unchanged |
| `Filename.AllSpaceCollapses` | dashboard.js:253 | a non-empty whitespace-only string becomes a single `_` |
| `Filename.CollapseKeepsWords` | dashboard.js:253 | every character other than whitespace and `_` survives, in order, and none is added |
| `Filename.CollapseAppendWord` | dashboard.js:253 | a leading word without whitespace passes through and the rest collapses on its own |
| `Filename.RunThenWordCollapses` | dashboard.js:253 | a non-empty whitespace run followed by text without whitespace becomes `_` and that text |
| `Filename.WordRunWord` | dashboard.js:253 | two whitespace-free texts around a non-empty whitespace run are joined by exactly one `_` |
| `Filename.RemovedCharacterJoins` | dashboard.js:252 | removing a character between two words joins them |
| `Filename.SanitizedTitle` | dashboard.js:251-254 | after removal, collapse and `slice(0, 50)`: no removed character, no whitespace, a prefix of the collapsed title, and exactly 50 characters long or the whole collapsed title when that is shorter |
| `Filename.SafeName` | dashboard.js:251-258 | the name part is non-empty, at most 50 characters, free of removed characters and whitespace, and is `webpage` exactly when the sanitized title is empty, the sanitized title otherwise |
| `Filename.FallbackIffAllIllegal` | dashboard.js:251-258 | `webpage` is used exactly when every character of the title is a removed one (the empty title included) |
| `Filename.WhitespaceTitleIsUnderscore` | dashboard.js:251-258 | a non-empty whitespace-only title yields `_`, not `webpage` |
| `Filename.SpacedSeparatorGivesOneUnderscore` | dashboard.js:251-254 | removal before collapse: `w1 + " c " + w2` with `c` removed yields `w1_w2` |
| `Filename.SpacedColonExample` | dashboard.js:251-258 | `"a : b"` yields `a_b` |
| `Filename.SeparatorSpaceThenJoin` | dashboard.js:251-254 | `w1 + "c " + w2 + "d" + w3` with `c`, `d` removed yields `w1_` followed by `w2w3` |
| `Filename.HelloWorldExample` | dashboard.js:251-258 | `"Hello: World/Test"` yields `Hello_WorldTest` |
| `Filename.DashSeparators` | dashboard.js:248 | each `:` and `.` becomes `-`, every other character is kept, length unchanged |
| `Filename.Timestamp` | dashboard.js:248 | the timestamp has the clock string's length less 5 (0 if shorter), has no `:` or `.`, and each character is the clock's or a `-` in place of a separator |
| `Filename.TimestampOfInstant` | dashboard.js:247-248 | on a `YYYY-MM-DDTHH:mm:ss.sssZ` reading the timestamp is `YYYY-MM-DDTHH-mm-ss` |
| `Filename.GenerateFilename` | dashboard.js:246-261 | the filename is as long as name, timestamp and extension plus the two separators |
| `Filename.FilenameParts` | dashboard.js:260 | the filename is exactly the safe name, `_`, the timestamp, `.` and the extension |
| `Filename.FilenameIsLegal` | dashboard.js:246-261 | with an ISO clock reading and a plain extension, the whole filename has no removed character and no whitespace |
| `Preview.CanvasLayout` | dashboard.js:62-79 | canvas width is the image width, height is the image height plus 60 with the header toggle on and 0 off, and the image is drawn at that header height |
| `Preview.ToggleAddsBand` | dashboard.js:62-67 | toggling the header changes only the canvas height, by 60, and the image keeps its size; off, the image starts at 0 |
| `Preview.LongestFit` | dashboard.js:124-131 | the kept prefix length is the largest one whose ellipsized prefix fits, or 0 when none fits |
| `Preview.ShownHeader` | dashboard.js:116-132 | if `URL: ` + url fits width - 20 it is shown unchanged; otherwise a prefix plus `...` that fits or has an empty prefix, and no longer prefix fits |
| `Preview.FitHeader` | dashboard.js:116-132 | the loop, which ends because the text shortens by one each round, computes exactly `ShownHeader` |
| `Review.StatusClass` | dashboard.js:285-292 | the class list is the base class, plus the type only for `success` and `error` |
| `Review.RenderCanvas` | dashboard.js:61-79 | the preview is a function of the image size, toggle, URL and measure: its layout is `CanvasLayout`, and a header is drawn exactly when the toggle is on, showing `ShownHeader` of the URL for the image width |
| `Review.SaveRequestsOneDownloadUnlessFailedEarly` | dashboard.js:170-188 | a save requests one download of its generated filename, or none when it fails before the download call |
| `Review.SaveBothRequestsInOrder` | dashboard.js:231-243 | "save both" attempts the JPEG then the PDF whatever the first did: its downloads are the JPEG file (if that save reached the download call) then the PDF file (likewise) |
| `Review.SaveBothAlwaysReportsSuccess` | dashboard.js:231-243 | "save both" always starts the PDF save and always ends with the "both saved" success status |
| `Review.PreviewStatus` | dashboard.js:56-90 | the status a preview update leaves: the base-class updating text after a decoded image, the error-class load error otherwise |
| `Review.ReviewPage.constructor` | dashboard.js:1-16 | the page starts with no stored capture, buttons disabled and an empty log |
| `Review.ReviewPage.ShowStatus` | dashboard.js:285-292 | sets the text and the class list and logs the status; the page invariant keeps the status line equal to the last status logged (empty, base class, before the first) |
| `Review.ReviewPage.UpdatePreview` | dashboard.js:54-97 | no-op while no image is stored; otherwise logs the updating status, then either renders `RenderCanvas` and schedules the hide, or reports the load error and keeps the old canvas; the status line ends as `PreviewStatus` |
| `Review.ReviewPage.ShowCapture` | dashboard.js:33-50 | the capture's image, URL and title are stored, the source line reads `キャプチャ元: ` + URL, the preview is re-rendered (only when the image is non-empty, the status line then ending as `PreviewStatus`; otherwise it is unchanged) and all four export buttons are enabled |
| `Review.ReviewPage.OnMessage` | dashboard.js:32-51 | `displayCapture` has exactly the effect of `ShowCapture`, including the status line it leaves; any other action changes nothing |
| `Review.ReviewPage.ToggleUrl` | dashboard.js:24 | the toggle re-renders the preview with the new header setting; a failed image load keeps the old canvas; the status line ends as `PreviewStatus`, or is unchanged while no image is stored |
| `Review.ReviewPage.CopyToClipboard` | dashboard.js:143-167 | logs the copying status, then the write, success and scheduled hide, or the error status; the status line ends with the copied text and `success` class, or the copy error and `error` class |
| `Review.ReviewPage.SaveAsJpeg` | dashboard.js:170-188 | logs exactly `JpegEffects` with a `.jpg` name from the stored title; the status line ends saved with the `success` class or failed with the `error` class |
| `Review.ReviewPage.SaveAsPdf` | dashboard.js:191-228 | logs exactly `PdfEffects` with a `.pdf` name from the stored title; the status line ends saved with the `success` class or failed with the `error` class |
| `Review.ReviewPage.Save` | dashboard.js:170-228 | the shared save: logs the saving status, then the download request and the saved status, or the error status when the export or download fails, with the matching class |
| `Review.ReviewPage.WaitBetweenSaves` | dashboard.js:236 | logs one 500 ms pause and changes nothing else |
| `Review.ReviewPage.SaveBoth` | dashboard.js:231-243 | logs exactly `SaveBothEffects` for the two generated filenames: the JPEG save, a 500 ms pause, the PDF save, and the success status last |
| `Controller.ErrorText` | background.js:87 | the alert text is the reply's error when that is non-empty, and `不明なエラー` otherwise; it is never empty |
| `Controller.HandleResponse` | background.js:52-89 | a listener is left exactly when the reply is a success and the review tab opened; the trace ends by waiting for that tab with a `displayCapture` message, or with an alert |
| `Controller.Click` | background.js:2-106 | every click ends with a registered listener (only on an eligible page) or an alert |
| `Controller.RestrictedPageOnlyAlerts` | background.js:7-19 | a `chrome://`, `edge://` or `about:` page gets one alert and nothing else: no command, no injection |
| `Controller.HandleResponseCounts` | background.js:52-89 | handling a reply sends and injects nothing, opens one tab exactly for a success, and alerts once unless a listener is left |
| `Controller.RetryPrefixCounts` | background.js:24-48 | the retry sequence holds two commands, two injections, no alert |
| `Controller.AtMostTwoSends` | background.js:24-48 | at most two commands and two injections per click; no injection when the first command was answered |
| `Controller.SendsOnlyCaptureCommand` | background.js:26 | every command sent is `captureFullPage` to the clicked tab |
| `Controller.InjectionOrder` | background.js:27-48 | after a failed first command: library, then agent, then a 500 ms wait and one resend; a failed library injection stops before the agent |
| `Controller.FailedInjectionCounts` | background.js:27-105 | a failed injection ends the click after one command with one alert; the agent is injected only after the library succeeded |
| `Controller.FailedRetryAlertsOnce` | background.js:47 | a failed resend is not retried: the click ends with one alert carrying the browser's message |
| `Controller.OneAlertUnlessListening` | background.js:2-106 | every click either leaves the listener registered and shows no alert, or leaves none and shows exactly one |
| `Controller.ClickNeverDelivers` | background.js:52-77 | the click itself never delivers the capture; only the listener does |
| `Controller.ListenerCarriesReply` | background.js:52-77 | a listener is registered exactly when the reply that reached the test is a success and the tab opened; it waits for that tab and carries image, URL and title unchanged |
| `Controller.FailedReplyAlertsError` | background.js:78-89 | a missing or failed reply opens no tab, registers nothing and ends with the error alert |
| `Controller.ClickSession.constructor` | background.js:2-106 | running the handler leaves exactly the trace and listener of `Click` |
| `Controller.ClickSession.TabUpdated` | background.js:61-77 | only `complete` of the review tab fires the listener, which removes itself before delivering; at most one delivery ever |
| `Agent.PageHeight` | content.js:38-44 | the height is at least each of the five signals and equal to one of them |
| `Agent.CaptureOptions` | content.js:54-64 | the capture uses that height as both window height and height, the body scroll width, and the negated current scroll offsets |
| `Agent.Wrapped` | content.js:82-85 | every error leaving the capture is the fixed prefix followed by the original message, hence non-empty |
| `Agent.CaptureResult` | content.js:25-86 | a capture resolves exactly when the library is present, rendering and encoding succeed, and then carries the encoded image and the page's URL and title; a rejection wraps the first failure's message (`html2canvas` missing, the render error, or the encode error) |
| `Agent.ReplyFor` | content.js:11-19 | a resolved capture is replied as is; a rejected one as a failure carrying the rejection message |
| `Agent.ReplyErrorNonEmpty` | content.js:11-19 | every failure reply has a non-empty, prefixed error |
| `Agent.Page.CaptureFullPage` | content.js:25-86 | without the library: rejected, no capture call, page untouched; after a successful capture the scroll is `(0, originalScrollY)`; a failed capture leaves the scroll as it was |
| `Agent.Page.OnMessage` | content.js:5-22 | only `captureFullPage` is handled; it returns true and sends exactly one reply, the result or `{success: false, error}`, and leaves the scroll at `(0, old scrollY)` after a rendered capture and as it was otherwise; other actions get no reply and change nothing |
| `EndToEnd.AgentFailureShownVerbatim` | background.js:78-88 | a failure reply from the agent is always alerted with its own text, never the fallback |
| `EndToEnd.DirectCaptureHandsOverPage` | background.js:24-77 | with the agent present and the capture succeeding: one command, no injection, no alert, and the listener carries the page's image, URL and title |
| `EndToEnd.CaptureAndReview` | background.js:52-77 | from click to review page: one reply, one delivery once the tab completes, and the review page holds the page's image, URL and title with its buttons enabled |

## Left out

- Pixel rendering by html2canvas and PNG/JPEG encoding: outcome parameters (`Agent.RenderOutcome`, `Agent.EncodeOutcome`, `Review.SaveOutcome`).
- Canvas drawing (fills, strokes, fonts, `drawImage` pixels) and the capture-time line of the URL header (`toLocaleString`, dashboard.js:136-139): only the geometry and the URL line's text are modelled.
- jsPDF and the PDF page height `imgHeight * 210 / imgWidth` (dashboard.js:197-219): a foreign library and floating-point arithmetic; a PDF save is one outcome.
- The Clipboard API, `chrome.downloads` and object-URL creation and revocation (dashboard.js:143-167, 264-282): host I/O; a download request is one `Download` event and its result one outcome.
- `ctx.measureText`: the parameter `measure`; no font metrics.
- `new Date()`: the clock reading is a string argument.
- Timer delays as time (500 ms retry settle, 500 ms between saves, 3000 ms hide): recorded as `Wait`, `Pause` and `HideLater` events only; what the hide timer later does to the status line is not modelled.
- The 1000 ms timer that revokes a download's object URL (dashboard.js:277): not recorded, since object URLs are not modelled.
- Concurrency: overlapping clicks (several listeners registered at once), a capture started while one is running, and interleaved image loads; each click and each preview update is modelled on its own, with the image-load callback delivered inside `UpdatePreview`.
- Console logging, DOM visibility and style changes, and the image-size log line (content.js:74).
- The outcome of the alert scripts: each is one attempt; a failure is swallowed or unobserved, so it changes nothing the handler does afterwards.
- The outcome of the delivery `sendMessage` (background.js:68-75): it is only logged, so `Deliver` is recorded whatever it returns.
- `Review.ReviewPage.CopyToClipboard`, `Review.ReviewPage.SaveAsJpeg`, `Review.ReviewPage.SaveAsPdf`: the `if (!previewCanvas) return;` guard is not modelled, because the canvas is looked up when the page loads, before the buttons get their handlers.
- `Review.ReviewPage.UpdatePreview`: its `catch` (dashboard.js:93-96) is not modelled, because nothing in its `try` block throws.
- `Review.ReviewPage.constructor`: the buttons' initial disabled state comes from `dashboard.html`, which is not part of this model; the model starts them disabled and takes the toggle's initial state as an argument.
- `Filename.SanitizedTitle`, `Filename.Timestamp`, `Preview.FitHeader`: lengths count Unicode scalar values, while JavaScript's `slice` and `length` count UTF-16 code units; a title with characters outside the Basic Multilingual Plane may be cut at a different place.
- An absent `originalImageData` (null) is modelled as the empty string: both fail the `if (!originalImageData)` test, and nothing else tells them apart.
- `Agent.Page.CaptureFullPage`: the page is assumed not to scroll on its own while the capture is in progress.
