/**
 * The capture sequencing of CaptureThread.run, as the sequence of effects it
 * produces. Every effect of the worker (simulated key presses, waits, screen
 * grabs, temporary PNG files, PDF pages, the PDF write, file removals) and
 * every signal it emits (progress, error, finished) is one Event; a run is
 * described by the trace of events it produces.
 *
 * What the environment decides (whether the document and the capture context
 * can be created, whether the UI has called stop() by the time of an
 * iteration's check, whether the key press or release raises, what each grab
 * returns or whether it raises, whether the PDF write or a file removal
 * fails) is an Env input.
 */
module CaptureTrace {
  import opened Options
  import opened Selection
  import opened PageFit

  /** A temporary file "screenshot_page_{page}.png". */
  datatype TempFile = ScreenshotPage(page: nat)

  /** The text of a progress signal. */
  datatype Message =
    | PageCaptured(page: nat, total: nat)   // "page/total captured"
    | PdfSaved                              // "PDF saved"

  /** The text of an error signal. */
  datatype ErrorKind =
    | Fatal                        // "error: ...", from the handler around the whole run
    | DeleteFailed(file: TempFile) // "error while deleting a file: ..."

  /** One image drawn on a PDF page. */
  datatype Image = Image(file: TempFile, at: Placement)

  /** The PDF under construction: its pages, each with the images drawn on it. */
  type Document = seq<seq<Image>>

  datatype Event =
    | KeyPress | KeyRelease          // the right-arrow key, pressed and released
    | ShortWait | LongWait           // a random short sleep; the 3 s slow-loading sleep
    | Grab(region: BBox)             // sct.grab of the selected region
    | SaveTemp(file: TempFile)       // the grab written as a PNG file
    | Progress(page: nat, msg: Message)
    | AddPage
    | WritePdf(doc: Document)        // pdf.output("output.pdf")
    | Remove(file: TempFile)         // an attempt to delete a temporary file
    | Error(kind: ErrorKind)
    | Finished

  /** What one grab produces: an image of the given size, or an exception. */
  datatype Shot =
    | Grabbed(width: nat, height: nat)
    | GrabFails    // sct.grab raises
    | SaveFails    // the grab succeeds, writing the PNG raises

  /** What the keyboard controller does at the key step of a page after the first. */
  datatype KeyFault =
    | KeysWork
    | PressFails     // pressing the key raises
    | ReleaseFails   // the press and the wait happen, releasing the key raises

  datatype Env = Env(
    openFails: bool,               // creating the FPDF document or the mss context raises
    stopBy: nat -> bool,           // stop() called before the check of this iteration
    keyFault: nat -> KeyFault,     // what the key step of this page does
    shot: nat -> Shot,             // what the grab of this page produces
    writeFails: bool,              // pdf.output raises
    removeFails: TempFile -> bool) // os.remove of this file raises

  /** The worker's parameters: region, page count and the slow-loading option. */
  datatype Job = Job(region: BBox, totalPages: nat, useDelay: bool)

  datatype Status = Running | Cancelled | Raised

  /** Where the page loop stands: what it produced, and whether it goes on. */
  datatype LoopState = LoopState(trace: seq<Event>, files: seq<TempFile>, doc: Document, status: Status)

  /** What precedes the grab of a page: the key press for later pages, a settling wait for the first. */
  function Advance(page: nat, useDelay: bool): seq<Event>
  {
    if page > 1 then [KeyPress, ShortWait, KeyRelease] + (if useDelay then [LongWait] else [])
    else [ShortWait]
  }

  /** Whether the key step of a page raises; the first page has none. */
  predicate KeyFails(page: nat, env: Env)
  {
    page > 1 && !env.keyFault(page).KeysWork?
  }

  /** What a key step that raised has produced before the exception. */
  function KeysBeforeFault(fault: KeyFault): seq<Event>
  {
    if fault.ReleaseFails? then [KeyPress, ShortWait] else []
  }

  /** A grabbed page: saved as a PNG, reported, and given a new PDF page. */
  function Captured(page: nat, job: Job): seq<Event>
  {
    [Grab(job.region), SaveTemp(ScreenshotPage(page)),
     Progress(page, PageCaptured(page, job.totalPages)), AddPage]
  }

  /** What an iteration that passes the check appends after its key and wait events. */
  function StepTail(page: nat, job: Job, shot: Shot): seq<Event>
  {
    match shot
    case GrabFails => []
    case SaveFails => [Grab(job.region)]
    case Grabbed(_, _) => Captured(page, job)
  }

  /** The temporary file an iteration saves: one exactly when its grab succeeded. */
  function SavedBy(page: nat, shot: Shot): seq<TempFile>
  {
    if shot.Grabbed? then [ScreenshotPage(page)] else []
  }

  /**
   * The images drawn on the PDF page that a grabbed page adds: its own image
   * at its fitted placement, or nothing when the placement divides by zero.
   */
  function Placed(page: nat, shot: Shot): seq<Image>
  {
    match shot
    case Grabbed(w, h) =>
      (match Fit(w, h) case Some(p) => [Image(ScreenshotPage(page), p)] case None => [])
    case _ => []
  }

  /** The PDF pages an iteration adds: one exactly when its grab succeeded. */
  function AddedBy(page: nat, shot: Shot): Document
  {
    if shot.Grabbed? then [Placed(page, shot)] else []
  }

  /** Whether the loop goes on after an iteration that passes the check, or has raised. */
  function Outcome(shot: Shot): Status
  {
    match shot
    case Grabbed(w, h) => if Fit(w, h).Some? then Running else Raised
    case _ => Raised
  }

  /**
   * One iteration of the page loop. `running` is the flag's value when run()
   * started; the flag is read false at this iteration exactly when it was
   * false then or stop() has been called since.
   */
  function Step(page: nat, job: Job, running: bool, env: Env, s: LoopState): LoopState
    requires s.status == Running
  {
    if !running || env.stopBy(page) then s.(status := Cancelled)
    else if KeyFails(page, env) then
      LoopState(s.trace + KeysBeforeFault(env.keyFault(page)), s.files, s.doc, Raised)
    else
      var shot := env.shot(page);
      LoopState(s.trace + Advance(page, job.useDelay) + StepTail(page, job, shot),
                s.files + SavedBy(page, shot), s.doc + AddedBy(page, shot), Outcome(shot))
  }

  /**
   * The loop after iterations 1..k (or after its break or exception, if
   * earlier). When the document or the capture context cannot be created,
   * the loop never starts.
   */
  function LoopAfter(k: nat, job: Job, running: bool, env: Env): LoopState
  {
    if k == 0 then LoopState([], [], [], if env.openFails then Raised else Running)
    else
      var s := LoopAfter(k - 1, job, running, env);
      if s.status == Running then Step(k, job, running, env, s) else s
  }

  /** The deletion loop: an attempt per file, in order; a failure is reported and skipped. */
  function Cleanup(files: seq<TempFile>, fails: TempFile -> bool): seq<Event>
  {
    if files == [] then []
    else
      var f := files[|files| - 1];
      Cleanup(files[..|files| - 1], fails) + [Remove(f)] + (if fails(f) then [Error(DeleteFailed(f))] else [])
  }

  /**
   * What follows a loop that ended without an exception and a PDF write that
   * succeeded: the final progress report, the deletions and the finish signal.
   */
  function Finalise(job: Job, env: Env, s: LoopState): seq<Event>
  {
    [WritePdf(s.doc), Progress(job.totalPages, PdfSaved)] + Cleanup(s.files, env.removeFails) + [Finished]
  }

  /** An exception in the loop or in the PDF write ends the run with one error. */
  predicate FatalRun(env: Env, s: LoopState)
  {
    s.status == Raised || env.writeFails
  }

  /** Everything run() produces. */
  function RunTrace(job: Job, running: bool, env: Env): seq<Event>
  {
    var s := LoopAfter(job.totalPages, job, running, env);
    if FatalRun(env, s) then s.trace + [Error(Fatal)] else s.trace + Finalise(job, env, s)
  }

  // ---------------------------------------------------------------------
  // Observations of a trace

  /** How often `e` occurs in `t`. */
  function Count(t: seq<Event>, e: Event): nat
  {
    if t == [] then 0 else Count(t[..|t| - 1], e) + (if t[|t| - 1] == e then 1 else 0)
  }

  /** The values `sel` picks out of the events of `t`, in order. */
  function Pick<T>(t: seq<Event>, sel: Event -> Option<T>): seq<T>
  {
    if t == [] then []
    else Pick(t[..|t| - 1], sel) + (match sel(t[|t| - 1]) case Some(x) => [x] case None => [])
  }

  function SavedFileOf(e: Event): Option<TempFile> { if e.SaveTemp? then Some(e.file) else None }
  function RemovedFileOf(e: Event): Option<TempFile> { if e.Remove? then Some(e.file) else None }
  function ErrorOf(e: Event): Option<ErrorKind> { if e.Error? then Some(e.kind) else None }
  function CapturedPageOf(e: Event): Option<nat>
  {
    if e.Progress? && e.msg.PageCaptured? then Some(e.page) else None
  }

  /** The temporary files of pages 1..m. */
  function Screenshots(m: nat): seq<TempFile>
  {
    seq(m, i requires 0 <= i => ScreenshotPage(i + 1))
  }

  /** The page numbers 1..m. */
  function PageNumbers(m: nat): seq<nat>
  {
    seq(m, i requires 0 <= i => i + 1)
  }

  /** The PDF after pages 1..m were each placed. */
  function PlacedDoc(env: Env, m: nat): Document
  {
    seq(m, i requires 0 <= i => Placed(i + 1, env.shot(i + 1)))
  }

  /** The deletion errors reported for `files`, in order. */
  function DeleteFailures(files: seq<TempFile>, fails: TempFile -> bool): seq<ErrorKind>
  {
    if files == [] then []
    else
      var f := files[|files| - 1];
      DeleteFailures(files[..|files| - 1], fails) + (if fails(f) then [DeleteFailed(f)] else [])
  }

  /**
   * The loop starts, and pages 1..k pass the check, press and release the key
   * without fault and capture an image of non-zero width.
   */
  predicate Clean(env: Env, k: nat)
  {
    !env.openFails &&
    forall p: nat :: 1 <= p <= k ==>
      !env.stopBy(p) && !KeyFails(p, env) && env.shot(p).Grabbed? && env.shot(p).width > 0
  }

  /** The number of key presses before page k: one for each page after the first. */
  function Advances(k: nat): nat { if k == 0 then 0 else k - 1 }

  // ---------------------------------------------------------------------
  // Trace algebra

  /** Each of the sequences of pages 1..m grows by page m + 1. */
  lemma ScreenshotsNext(m: nat)
    ensures Screenshots(m + 1) == Screenshots(m) + [ScreenshotPage(m + 1)]
  {
    assert Screenshots(m + 1)[..m] == Screenshots(m);
  }

  lemma PageNumbersNext(m: nat)
    ensures PageNumbers(m + 1) == PageNumbers(m) + [m + 1]
  {
    assert PageNumbers(m + 1)[..m] == PageNumbers(m);
  }

  lemma PlacedDocNext(env: Env, m: nat)
    ensures PlacedDoc(env, m + 1) == PlacedDoc(env, m) + [Placed(m + 1, env.shot(m + 1))]
  {
    assert PlacedDoc(env, m + 1)[..m] == PlacedDoc(env, m);
  }

  lemma {:induction false} CountConcat(a: seq<Event>, b: seq<Event>, e: Event)
    ensures Count(a + b, e) == Count(a, e) + Count(b, e)
    decreases |b|
  {
    if b != [] {
      var b' := b[..|b| - 1];
      assert (a + b)[..|a + b| - 1] == a + b';
      CountConcat(a, b', e);
    } else {
      assert a + b == a;
    }
  }

  lemma {:induction false} PickConcat<T>(a: seq<Event>, b: seq<Event>, sel: Event -> Option<T>)
    ensures Pick(a + b, sel) == Pick(a, sel) + Pick(b, sel)
    decreases |b|
  {
    if b != [] {
      var b' := b[..|b| - 1];
      assert (a + b)[..|a + b| - 1] == a + b';
      PickConcat(a, b', sel);
    } else {
      assert a + b == a;
    }
  }

  lemma CountOne(x: Event, e: Event)
    ensures Count([x], e) == if x == e then 1 else 0
  {
    assert [x][..0] == [];
  }

  /** An event is counted zero times exactly when it does not occur. */
  lemma {:induction false} CountAbsent(t: seq<Event>, e: Event)
    ensures Count(t, e) == 0 <==> e !in t
  {
    if t != [] {
      assert t == t[..|t| - 1] + [t[|t| - 1]];
      CountAbsent(t[..|t| - 1], e);
    }
  }

  /** Nothing is picked from events the selector ignores. */
  lemma {:induction false} PickNone<T>(t: seq<Event>, sel: Event -> Option<T>)
    requires forall i :: 0 <= i < |t| ==> sel(t[i]).None?
    ensures Pick(t, sel) == []
  {
    if t != [] {
      PickNone(t[..|t| - 1], sel);
    }
  }
}
