# book-scanner capture core in Dafny

book-scanner photographs an on-screen book viewer page by page. The user drags
a rectangle over the screen. The program then repeatedly grabs that region,
saves each grab as a temporary PNG, and lays it out on its own landscape A4
page of a PDF. Between pages it presses the right-arrow key. Finally it writes
`output.pdf` and deletes the temporary files. Everything lives in `main.py`.

This project models four parts of it:

- **Region selection** (`selection.dfy`, module `Selection`). The overlay
  window is a class with its three fields (start position, current position,
  selecting flag) and its three mouse handlers. The normalisation of the two
  drag corners into a `left/top/width/height` box is a function with lemmas:
  the box is symmetric in the corners, holds both, and is the smallest box
  that does. The release guard tests the positions' Python truthiness, as the
  code does. A `QPoint` at the origin is false, so a drag from or to the
  overlay's top-left pixel emits nothing (see Findings).
- **Page fit** (`page_fit.dfy`, module `PageFit`). Each image is scaled into
  a 277 x 190 mm box and centred on a 297 x 210 mm page. This uses exact
  reals. A zero image width is the division by zero of the aspect ratio.
  The proved properties: the placement fits, fills one side, keeps the aspect
  ratio and is centred with 10 mm margins. It is also the largest such size
  and the only one.
- **Capture sequencing** (`capture_trace.dfy`, `capture_properties.dfy` and
  `worker.dfy`). The worker thread's `run()` and `stop()` are imperative
  methods of a `CaptureThread` class, and a `Pdf` class models the document.
  The thread records everything it does and signals in a `trace` of events:
  key presses, waits, grabs, PNG writes, progress, PDF pages, the PDF write,
  file removals, errors and the finish signal. `Run` is proved to produce
  exactly `RunTrace`, a function defined iteration by iteration. Lemmas about
  `RunTrace` state what a run does, namely:
  - a clean run of N pages;
  - a run cancelled by `stop()`;
  - a failure to create the PDF document or the capture context;
  - a key press or release that raises;
  - a failing grab, PNG write or PDF write;
  - a zero-width image;
  - failed deletions.

  What the environment decides is an `Env` input:
  - whether `FPDF(...)` and `mss.mss()` succeed;
  - when `stop()` is called;
  - whether the key press or the key release raises, page by page;
  - what each grab yields;
  - whether the PDF write fails;
  - which deletions fail.
- **Starting a capture** (`launcher.dfy`, module `Launcher`). The main window
  holds a page-count spin box bounded to 1..1000. `start_capture` does nothing
  until a region is selected. After that it disables the controls and creates
  the worker from the region, the spin box value and the slow-loading check
  box.

## Model

| member | source | states |
|---|---|---|
| Selection.Normalize | main.py:42-49 | width and height are non-negative; left/top are the smaller coordinates and left+width/top+height the larger ones |
| Selection.NormalizeSymmetric | main.py:46-49 | swapping the drag's start and end gives the same box |
| Selection.NormalizeCoversEndpoints | main.py:46-49 | both drag corners lie inside the box |
| Selection.NormalizeIsSmallest | main.py:46-49 | every box holding both corners encloses the normalised box |
| Selection.PaintRectIsSelection | main.py:65-68 | the rectangle the paint handler draws is the box a release emits |
| Selection.ReleaseEmits | main.py:38-57 | a release emits a box exactly for a left release while selecting with both positions truthy; the box holds both corners |
| Selection.CornerDragDropped | main.py:41 | a drag starting at the overlay's origin emits nothing on release |
| Selection.IntendedRelease | main.py:41-57 | the corrected release emits exactly when both positions have been recorded |
| Selection.IntendedReleaseEmits | main.py:41-57 | the corrected release emits a box holding both corners for every completed drag, and agrees with the code when no corner is the origin |
| Selection.SelectionWindow.constructor | main.py:24-26 | no positions recorded, not selecting |
| Selection.SelectionWindow.Preview | main.py:60-69 | a rectangle is drawn exactly when both positions are truthy and a selection is in progress, and it holds both positions |
| Selection.SelectionWindow.MousePress | main.py:28-31 | a left press records the start and begins selecting; other buttons change nothing |
| Selection.SelectionWindow.MouseMove | main.py:33-36 | the current position follows the mouse only while selecting |
| Selection.SelectionWindow.MouseRelease | main.py:38-57 | a left release ends the selection and emits exactly the box that was previewed (nothing when none was); positions are kept |
| PageFit.Fit | main.py:116-126 | a placement exists exactly when the image width is non-zero (otherwise the aspect-ratio division raises) |
| PageFit.FitPlacement | main.py:116-126 | the placement fits the 277 x 190 mm box, fills it in one direction, keeps the aspect ratio and is centred on the 297 x 210 mm page with margins of at least 10 mm |
| PageFit.FitIsLargest | main.py:118-123 | no aspect-preserving scale that fits the box is larger than the fitted size |
| PageFit.FitIsUnique | main.py:118-123 | every size that fits, fills one side and keeps the aspect ratio is the fitted size |
| CaptureProperties.AdvanceCounts | main.py:94-106 | before each grab: one short wait, plus one key press/release and, with slow loading, one long wait for every page after the first |
| CaptureProperties.CapturedCounts | main.py:108-115 | a captured page yields one grab, one PNG, one progress report and one new PDF page |
| CaptureProperties.LoopFiles | main.py:90-127 | the temporary files are those of pages 1..m in order, one PDF page each, each page holding its own fitted image unless the loop raised; all k pages while running |
| CaptureProperties.LoopSaved | main.py:109-111 | the PNG files written, as the trace shows them, are exactly the loop's file list |
| CaptureProperties.LoopReported | main.py:113 | the pages reported as captured are 1..m in increasing order, one per saved file |
| CaptureProperties.LoopPages | main.py:115 | one PDF page is added per saved file |
| CaptureProperties.LoopEventsOnly | main.py:90-127 | the page loop never writes the PDF, removes a file, reports an error or finishes |
| CaptureProperties.LoopGrabs | main.py:108-111 | unless the loop raised, every grab produced a saved file |
| CaptureProperties.LoopSettled | main.py:91-92 | once the loop broke off or raised, later pages change nothing |
| CaptureProperties.LoopGrows | main.py:90-127 | the trace, the file list and the PDF only grow from page to page |
| CaptureProperties.PageBlock | main.py:94-115 | a captured page appends its key and waits, then grab, PNG, progress and new page, in that order, after all earlier pages |
| CaptureProperties.StopPreventsCapture | main.py:91-92 | a stop seen at the check of page k prevents the capture of page k and every later page; when the loop reached that check, it adds no event after it (no key, wait or grab) |
| CaptureProperties.CleanLoop | main.py:90-106 | with no stop and no fault, k pages give k - 1 key presses and releases, k - 1 long waits exactly when slow loading is on, and k short waits |
| CaptureProperties.CleanLoopRuns | main.py:90-127 | pages with no stop and a non-empty grab keep the loop running |
| CaptureProperties.CleanLoopCount | main.py:94-106 | the count of each key or wait event over k clean pages |
| CaptureProperties.CleanupRemoves | main.py:133-137 | a removal is attempted for every file, in order, whatever fails |
| CaptureProperties.CleanupErrors | main.py:133-137 | the deletion errors reported are exactly the failed files, in order |
| CaptureProperties.CleanupEvents | main.py:133-137 | the deletion loop only removes files and reports failed deletions |
| CaptureProperties.DeleteFailuresNamed | main.py:136-137 | every deletion error names a file and is never the fatal error |
| CaptureProperties.CompletedRun | main.py:129-139 | without an exception: the PDF as built is written, the save is reported with the full page count, every file removal is attempted in order, exactly the failed deletions are reported, and the finish signal is emitted once, last |
| CaptureProperties.FailedRun | main.py:141-142 | an exception in the loop or the PDF write gives exactly one error, the fatal one; no finish, no PDF write, no removal |
| CaptureProperties.OneOutcome | main.py:84-142 | every run ends either with one finish and no fatal error, or with one fatal error and no finish |
| CaptureProperties.CleanRun | main.py:84-139 | a clean run of N pages makes N grabs, N PNGs (pages 1..N), N progress reports and N PDF pages; N - 1 key presses and releases; N - 1 long waits exactly when slow loading is on; it writes every page's image, removes all N files and finishes |
| CaptureProperties.CancelledRun | main.py:90-139 | a stop first seen at page k keeps pages 1..k-1, writes the PDF of those, still reports the save with the full page count, removes their files and finishes |
| CaptureProperties.CancelledLoop | main.py:90-92 | a stop seen at page k leaves the loop with pages 1..k-1 saved and placed |
| CaptureProperties.OpenFailsRun | main.py:84-142 | when the PDF document or the capture context cannot be created, the run signals the fatal error and nothing else |
| CaptureProperties.KeyFaultRun | main.py:94-142 | a key press or release that raises at page k ends the run with the fatal error right after the key step: pages 1..k-1 grabbed, no grab of page k, one press fewer when the press itself raised, no finish |
| CaptureProperties.ZeroWidthRun | main.py:108-142 | a zero-width grab is saved, reported and given a page, then the aspect-ratio division raises: one fatal error, no finish |
| CaptureProperties.LoopKeysAfterGrab | main.py:94-98 | in the page loop, no key is pressed before a grab |
| CaptureProperties.RunKeysAfterGrab | main.py:94-98 | in a whole run, every key press follows a grab |
| Worker.Pdf.constructor | main.py:86 | the document starts with no pages |
| Worker.Pdf.AddPage | main.py:115 | appends one empty page |
| Worker.Pdf.DrawImage | main.py:127 | draws the image on the last page, nothing else changes |
| Worker.CaptureThread.constructor | main.py:75-83 | keeps the region, page count and option; the flag starts set |
| Worker.CaptureThread.Stop | main.py:144-145 | clears the running flag |
| Worker.CaptureThread.RemoveFiles | main.py:133-137 | appends the deletion loop's events for the files, in order |
| Worker.CaptureThread.TurnPage | main.py:94-106 | appends the key press, wait, release and optional long wait of a later page, or the first page's wait; raises exactly when the key step faults, after what it produced |
| Worker.CaptureThread.CapturePage | main.py:108-127 | appends one page's capture events, saves its file and adds its PDF page, stopping where an exception occurs |
| Worker.CaptureThread.Iteration | main.py:90-127 | one iteration: a stop breaks the loop, a key fault raises, otherwise the page is captured; the state matches one Step |
| Worker.CaptureThread.CapturePages | main.py:89-127 | the page loop produces exactly the trace, files and PDF of LoopAfter |
| Worker.CaptureThread.WriteAndCleanUp | main.py:129-139 | writes the PDF, reports the save, removes the files and finishes, or raises at the write |
| Worker.CaptureThread.Run | main.py:84-142 | the whole run appends exactly RunTrace; the flag is cleared exactly when a stop was seen |
| Launcher.SpinValue | main.py:164-167 | the spin box holds a value within 1..1000, the requested one when in range |
| Launcher.SpinValueNearest | main.py:164-166 | the value held is the allowed value nearest to the request |
| Launcher.Launch | main.py:207-228 | nothing starts without a selected region; otherwise the worker gets the region, the spin box value (1..1000) and the check box |
| Launcher.LaunchedCleanRun | main.py:225-228 | a launched clean run grabs 1..1000 pages, presses the key one time fewer and finishes |
| Launcher.MainWindow.constructor | main.py:164-187 | no region, page count 1, start disabled |
| Launcher.MainWindow.SetPageCount | main.py:164-166 | the page count stays within 1..1000 |
| Launcher.MainWindow.AreaSelected | main.py:198-204 | remembers the region and enables the start button |
| Launcher.MainWindow.StartCapture | main.py:207-228 | without a region nothing changes; otherwise the controls are disabled and the worker is created from the region, page count and check box |

## Findings

| source | as written | input that shows it | evidently intended | confidence | as-written member | corrected member |
|---|---|---|---|---|---|---|
| main.py:41 | `if self.start_pos and self.current_pos` tests truthiness, and PySide treats the null `QPoint` (0, 0) as false | a left drag from widget position (0, 0), the screen's top-left corner on the full-screen overlay, to (100, 50) | test only that both positions were recorded (`is not None`), so the drag emits the box (0, 0, 100, 50) | medium, not executed; relies on PySide's `QPoint` truthiness | Selection.CornerDragDropped | Selection.IntendedReleaseEmits |

The same truthiness test guards the preview in `paintEvent` (main.py:61). `SelectionWindow` models both guards as written. The corrected release is `Selection.IntendedRelease`.

## Left out

- Qt widgets, windows, message boxes and signal wiring are not modelled. Signals emitted by the worker appear as `Progress`, `Error` and `Finished` events.
- The `update_progress`, `capture_finished`, `show_error` and `select_area` slots only change widgets. They are not modelled.
- Screen capture (`mss`), PNG encoding, FPDF and the `pynput` keyboard are not modelled. Their effects are trace events. These exception points are `Env` inputs: creating the document and the capture context, the key press and release, the grab, the PNG write, the PDF write and each deletion.
- Sleep lengths and their random jitter are left out. A sleep is a `ShortWait` or a 3 s `LongWait` event. The 3 s `QThread.msleep` in `start_capture` is not modelled.
- Threading is not modelled. A `stop()` from the UI thread is applied just before the flag check of the iteration `Env.stopBy` names, because that check is the only place the worker reads the flag. `closeEvent`'s stop-and-wait is not modelled.
- Float arithmetic of the page fit is exact real arithmetic. Rounding is not modelled.
- `pdf.image` is called with the width only. The model records the fitted placement, whose height is the one FPDF derives from the aspect ratio.
- Temporary file names are abstract (`ScreenshotPage(n)`). The PDF file name and the error message texts are not modelled.
- Exceptions from `pdf.add_page`, `time.sleep` and `random.uniform`, and those of `pdf.image` other than the zero-width division, are not modelled. The same goes for a partially written PNG.
- `CaptureThread.totalPages` is a `nat`. The spin box never produces a negative count.
- QThread's own built-in finished signal is not modelled. The model tracks only the `finished` signal that the class declares and `run()` emits.
- `SelectionWindow` does not model `close()` after a successful release, nor the `update()` repaint requests.
