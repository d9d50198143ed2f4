/**
 * The capture worker as the object it is in main.py: a CaptureThread whose
 * run() loops over the pages and records every effect and signal in its
 * `trace`, and whose stop() clears the `isRunning` flag that run() reads once
 * per iteration. The PDF under construction is a Pdf object that run()
 * mutates page by page.
 */
module Worker {
  import opened Options
  import opened Selection
  import opened PageFit
  import opened CaptureTrace
  import CaptureProperties

  /** The FPDF document (landscape A4): a list of pages, each with the images drawn on it. */
  class Pdf {
    var pages: Document

    constructor ()
      ensures pages == []
    {
      pages := [];
    }

    /** Starts a new, empty page; later images are drawn on it. */
    method AddPage()
      modifies this
      ensures pages == old(pages) + [[]]
    {
      pages := pages + [[]];
    }

    /** Draws an image on the current (last) page. */
    method DrawImage(img: Image)
      requires pages != []
      modifies this
      ensures pages == old(pages)[..|old(pages)| - 1] + [old(pages)[|old(pages)| - 1] + [img]]
    {
      pages := pages[..|pages| - 1] + [pages[|pages| - 1] + [img]];
    }
  }

  class CaptureThread {
    const bbox: BBox
    const totalPages: nat
    const useDelay: bool
    var isRunning: bool
    /** Everything the thread has done and signalled, in order. */
    var trace: seq<Event>

    /** The parameters the thread was created with. */
    function Params(): Job
    {
      Job(bbox, totalPages, useDelay)
    }

    constructor (bbox: BBox, totalPages: nat, useDelay: bool)
      ensures this.bbox == bbox && this.totalPages == totalPages && this.useDelay == useDelay
      ensures isRunning && trace == []
    {
      this.bbox := bbox;
      this.totalPages := totalPages;
      this.useDelay := useDelay;
      isRunning := true;
      trace := [];
    }

    /** Asks the loop to stop at its next check. */
    method Stop()
      modifies this`isRunning
      ensures !isRunning
    {
      isRunning := false;
    }

    /** The deletion loop: every file is tried; a failure is reported and the loop goes on. */
    method RemoveFiles(files: seq<TempFile>, fails: TempFile -> bool)
      modifies this`trace
      ensures trace == old(trace) + Cleanup(files, fails)
    {
      for i := 0 to |files|
        invariant trace == old(trace) + Cleanup(files[..i], fails)
      {
        assert files[..i + 1][..i] == files[..i];
        trace := trace + [Remove(files[i])];
        if fails(files[i]) {
          trace := trace + [Error(DeleteFailed(files[i]))];
        }
      }
      assert files[..|files|] == files;
    }

    /**
     * The key step before a grab: for a page after the first, press the key,
     * wait, release it and, with slow loading, wait long; for the first page,
     * only wait. `raised` says that the key press or release raised.
     */
    method TurnPage(page: nat, env: Env) returns (raised: bool)
      modifies this`trace
      ensures raised == KeyFails(page, env)
      ensures trace == old(trace) +
        if raised then KeysBeforeFault(env.keyFault(page)) else Advance(page, useDelay)
    {
      raised := false;
      if page > 1 {
        var fault := env.keyFault(page);
        if fault.PressFails? {
          return true;
        }
        trace := trace + [KeyPress, ShortWait];
        if fault.ReleaseFails? {
          return true;
        }
        trace := trace + [KeyRelease];
        if useDelay {
          trace := trace + [LongWait];
        }
      } else {
        trace := trace + [ShortWait];
      }
    }

    /**
     * The rest of an iteration once the key step has passed: the grab, the temporary PNG, the progress signal, the
     * new PDF page and the image on it. `raised` says that one of these
     * raised; the iteration then stops where the exception occurred.
     */
    method CapturePage(page: nat, env: Env, pdf: Pdf, files: seq<TempFile>, ghost s: LoopState)
      returns (files': seq<TempFile>, raised: bool)
      requires s.status == Running && s.files == files && s.doc == pdf.pages
      requires !env.stopBy(page) && !KeyFails(page, env)
      modifies this`trace, pdf
      ensures var s' := Step(page, Params(), true, env, s);
        trace == old(trace) + StepTail(page, Params(), env.shot(page)) &&
        files' == s'.files && pdf.pages == s'.doc &&
        (raised <==> s'.status == Raised) && (!raised ==> s'.status == Running)
    {
      files' := files;
      raised := false;
      var shot := env.shot(page);
      if shot.GrabFails? {
        raised := true;
        return;
      }
      trace := trace + [Grab(bbox)];
      if shot.SaveFails? {
        raised := true;
        return;
      }
      var imagePath := ScreenshotPage(page);
      trace := trace + [SaveTemp(imagePath)];
      files' := files' + [imagePath];
      trace := trace + [Progress(page, PageCaptured(page, totalPages))];
      pdf.AddPage();
      trace := trace + [AddPage];
      var placement := Fit(shot.width, shot.height);
      if placement.None? {
        // ZeroDivisionError at the aspect ratio
        raised := true;
        return;
      }
      pdf.DrawImage(Image(imagePath, placement.value));
      assert (s.doc + [[]])[..|s.doc|] == s.doc;
      assert [] + [Image(imagePath, placement.value)] == [Image(imagePath, placement.value)];
      assert pdf.pages == s.doc + [[Image(imagePath, placement.value)]];
    }

    /**
     * After the page loop: write the PDF (which may raise), report the save
     * with the full page count, delete the temporary files and signal the finish.
     */
    method WriteAndCleanUp(env: Env, doc: Document, files: seq<TempFile>, ghost s: LoopState) returns (raised: bool)
      requires s.doc == doc && s.files == files
      modifies this`trace
      ensures raised == env.writeFails
      ensures trace == old(trace) + if raised then [] else Finalise(Params(), env, s)
    {
      if env.writeFails {
        return true;
      }
      raised := false;
      trace := trace + [WritePdf(doc)];
      trace := trace + [Progress(totalPages, PdfSaved)];
      RemoveFiles(files, env.removeFails);
      trace := trace + [Finished];
    }

    /**
     * One iteration of the page loop of run(). The flag is read once per
     * iteration; a stop() that the UI issues at any moment takes effect at the
     * next such read, so it is applied just before the read of the iteration
     * `env.stopBy` names. `proceed` says that the loop goes on.
     */
    method Iteration(page: nat, env: Env, pdf: Pdf, files: seq<TempFile>,
                     ghost running: bool, ghost before: seq<Event>, ghost s: LoopState)
      returns (files': seq<TempFile>, proceed: bool, raised: bool)
      requires isRunning == running
      requires s.status == Running && trace == before + s.trace && files == s.files && pdf.pages == s.doc
      modifies this`trace, this`isRunning, pdf
      ensures var s' := Step(page, Params(), running, env, s);
        trace == before + s'.trace && files' == s'.files && pdf.pages == s'.doc &&
        (proceed <==> s'.status == Running) && (raised <==> s'.status == Raised) &&
        isRunning == (running && s'.status != Cancelled)
    {
      files', proceed, raised := files, false, false;
      if env.stopBy(page) {
        Stop();
      }
      if !isRunning {
        return;
      }
      raised := TurnPage(page, env);
      if raised {
        CaptureProperties.FaultStep(page, Params(), running, env, s);
        return;
      }
      files', raised := CapturePage(page, env, pdf, files, s);
      CaptureProperties.StepShape(page, Params(), running, env, s);
      proceed := !raised;
    }

    /** The page loop of run(); an exception ends it where it occurred. */
    method CapturePages(env: Env, pdf: Pdf) returns (files: seq<TempFile>, raised: bool)
      requires pdf.pages == [] && !env.openFails
      modifies this`trace, this`isRunning, pdf
      ensures var s := LoopAfter(totalPages, Params(), old(isRunning), env);
        trace == old(trace) + s.trace && files == s.files && pdf.pages == s.doc &&
        (raised <==> s.status == Raised) && isRunning == (old(isRunning) && s.status != Cancelled)
    {
      ghost var running := isRunning;
      ghost var s := LoopAfter(0, Params(), running, env);
      files := [];
      raised := false;
      var page := 1;
      while page <= totalPages
        invariant 1 <= page <= totalPages + 1
        invariant isRunning == running && !raised
        invariant s == LoopAfter(page - 1, Params(), running, env) && s.status == Running
        invariant trace == old(trace) + s.trace && files == s.files && pdf.pages == s.doc
      {
        var proceed;
        files, proceed, raised := Iteration(page, env, pdf, files, running, old(trace), s);
        CaptureProperties.LoopNext(page, Params(), running, env);
        s := Step(page, Params(), running, env, s);
        if !proceed {
          CaptureProperties.LoopSettled(page, totalPages, Params(), running, env);
          return;
        }
        page := page + 1;
      }
    }

    /**
     * The worker's body: the page loop, then the PDF write and the clean-up.
     * An exception in either, or in creating the document or the capture
     * context before them, ends the run with one error signal and no finish.
     */
    method Run(env: Env)
      modifies this`trace, this`isRunning
      ensures trace == old(trace) + RunTrace(Params(), old(isRunning), env)
      ensures isRunning ==
        (old(isRunning) && LoopAfter(totalPages, Params(), old(isRunning), env).status != Cancelled)
    {
      ghost var s := LoopAfter(totalPages, Params(), isRunning, env);
      if env.openFails {
        CaptureProperties.OpenFailsRun(Params(), isRunning, env);
        trace := trace + [Error(Fatal)];
        return;
      }
      var pdf := new Pdf();
      var screenshotFiles, raised := CapturePages(env, pdf);
      if !raised {
        raised := WriteAndCleanUp(env, pdf.pages, screenshotFiles, s);
      }
      if raised {
        trace := trace + [Error(Fatal)];
      }
    }
  }
}
