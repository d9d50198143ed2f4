/**
 * What the page loop and the whole of CaptureThread.run promise, proved about
 * the trace functions of CaptureTrace.
 */
module CaptureProperties {
  import opened Options
  import opened Selection
  import opened CaptureTrace

  // ---------------------------------------------------------------------
  // The two fixed event blocks of an iteration

  /** The key and wait events before a grab: one press/release pair and one long wait for every page after the first. */
  lemma AdvanceCounts(page: nat, useDelay: bool, e: Event)
    ensures Count(Advance(page, useDelay), e) ==
      (if e == ShortWait then 1 else 0) +
      (if page > 1 && (e == KeyPress || e == KeyRelease) then 1 else 0) +
      (if page > 1 && useDelay && e == LongWait then 1 else 0)
  {
    CountOne(ShortWait, e);
    if page > 1 {
      var w: seq<Event> := if useDelay then [LongWait] else [];
      var keys := [KeyPress] + [ShortWait] + [KeyRelease];
      assert Advance(page, useDelay) == keys + w;
      CountConcat(keys, w, e);
      CountConcat([KeyPress] + [ShortWait], [KeyRelease], e);
      CountConcat([KeyPress], [ShortWait], e);
      CountOne(KeyPress, e);
      CountOne(KeyRelease, e);
      CountOne(LongWait, e);
    }
  }

  /** The capture block holds one grab, one temp file, one progress report and one new page. */
  lemma CapturedCounts(page: nat, job: Job, e: Event)
    ensures Count(Captured(page, job), e) ==
      (if e == Grab(job.region) then 1 else 0) +
      (if e == SaveTemp(ScreenshotPage(page)) then 1 else 0) +
      (if e == Progress(page, PageCaptured(page, job.totalPages)) then 1 else 0) +
      (if e == AddPage then 1 else 0)
  {
    var a, b, c, d := Grab(job.region), SaveTemp(ScreenshotPage(page)),
                      Progress(page, PageCaptured(page, job.totalPages)), AddPage;
    assert Captured(page, job) == [a] + [b] + [c] + [d];
    CountConcat([a] + [b] + [c], [d], e);
    CountConcat([a] + [b], [c], e);
    CountConcat([a], [b], e);
  }

  /** The tail of an iteration saves the page's file exactly when its grab succeeded. */
  lemma TailSaved(page: nat, job: Job, shot: Shot)
    ensures Pick(StepTail(page, job, shot), SavedFileOf) == SavedBy(page, shot)
  {
    var a, b, c, d := Grab(job.region), SaveTemp(ScreenshotPage(page)),
                      Progress(page, PageCaptured(page, job.totalPages)), AddPage;
    if shot.Grabbed? {
      assert StepTail(page, job, shot) == [a, b, c, d];
      PickNone([a], SavedFileOf);
      PickConcat([a], [b], SavedFileOf);
      PickNone([c, d], SavedFileOf);
      PickConcat([a, b], [c, d], SavedFileOf);
      assert [a] + [b] == [a, b] && [a, b] + [c, d] == [a, b, c, d];
    } else {
      PickNone(StepTail(page, job, shot), SavedFileOf);
    }
  }

  /** The tail of an iteration reports the page exactly when its grab succeeded. */
  lemma TailReported(page: nat, job: Job, shot: Shot)
    ensures Pick(StepTail(page, job, shot), CapturedPageOf) == if shot.Grabbed? then [page] else []
  {
    var a, b, c, d := Grab(job.region), SaveTemp(ScreenshotPage(page)),
                      Progress(page, PageCaptured(page, job.totalPages)), AddPage;
    if shot.Grabbed? {
      assert StepTail(page, job, shot) == [a, b, c, d];
      PickNone([a, b], CapturedPageOf);
      PickConcat([a, b], [c], CapturedPageOf);
      PickNone([d], CapturedPageOf);
      PickConcat([a, b, c], [d], CapturedPageOf);
      assert [a, b] + [c] == [a, b, c] && [a, b, c] + [d] == [a, b, c, d];
    } else {
      PickNone(StepTail(page, job, shot), CapturedPageOf);
    }
  }

  /** An iteration that passes the check appends Advance and StepTail, and saves a file exactly when it grabbed. */
  lemma StepShape(page: nat, job: Job, running: bool, env: Env, s: LoopState)
    requires s.status == Running && running && !env.stopBy(page) && !KeyFails(page, env)
    ensures Step(page, job, running, env, s).trace ==
      s.trace + Advance(page, job.useDelay) + StepTail(page, job, env.shot(page))
    ensures Step(page, job, running, env, s).files ==
      s.files + (if env.shot(page).Grabbed? then [ScreenshotPage(page)] else [])
  {
  }

  /** An iteration whose key step raises adds only what the key step produced, and raises. */
  lemma FaultStep(page: nat, job: Job, running: bool, env: Env, s: LoopState)
    requires s.status == Running && running && !env.stopBy(page) && KeyFails(page, env)
    ensures var s' := Step(page, job, running, env, s);
      s'.trace == s.trace + KeysBeforeFault(env.keyFault(page)) &&
      s'.files == s.files && s'.doc == s.doc && s'.status == Raised
  {
  }

  /** What a selector that ignores key and wait events picks from an iteration whose key step raised. */
  lemma FaultPick<T>(page: nat, job: Job, running: bool, env: Env, s: LoopState, sel: Event -> Option<T>)
    requires s.status == Running && running && !env.stopBy(page) && KeyFails(page, env)
    requires sel(KeyPress).None? && sel(ShortWait).None?
    ensures Pick(Step(page, job, running, env, s).trace, sel) == Pick(s.trace, sel)
  {
    var a := KeysBeforeFault(env.keyFault(page));
    FaultStep(page, job, running, env, s);
    PickNone(a, sel);
    PickConcat(s.trace, a, sel);
  }

  /** An iteration whose key step raised adds no event other than a key press and a wait. */
  lemma FaultCount(page: nat, job: Job, running: bool, env: Env, s: LoopState, e: Event)
    requires s.status == Running && running && !env.stopBy(page) && KeyFails(page, env)
    requires e != KeyPress && e != ShortWait
    ensures Count(Step(page, job, running, env, s).trace, e) == Count(s.trace, e)
  {
    var a := KeysBeforeFault(env.keyFault(page));
    FaultStep(page, job, running, env, s);
    CountAbsent(a, e);
    CountConcat(s.trace, a, e);
  }

  // ---------------------------------------------------------------------
  // The page loop, for every environment

  /** While the loop runs, iteration k is one Step from the state after k - 1 iterations. */
  lemma LoopNext(k: nat, job: Job, running: bool, env: Env)
    requires k >= 1 && LoopAfter(k - 1, job, running, env).status == Running
    ensures LoopAfter(k, job, running, env) == Step(k, job, running, env, LoopAfter(k - 1, job, running, env))
  {
  }

  /** What a selector that ignores key and wait events picks from an iteration that passes the check. */
  lemma StepPick<T>(page: nat, job: Job, running: bool, env: Env, s: LoopState, sel: Event -> Option<T>)
    requires s.status == Running && running && !env.stopBy(page) && !KeyFails(page, env)
    requires sel(KeyPress).None? && sel(KeyRelease).None? && sel(ShortWait).None? && sel(LongWait).None?
    ensures Pick(Step(page, job, running, env, s).trace, sel) ==
      Pick(s.trace, sel) + Pick(StepTail(page, job, env.shot(page)), sel)
  {
    var a, b := Advance(page, job.useDelay), StepTail(page, job, env.shot(page));
    StepShape(page, job, running, env, s);
    AdvancePick(page, job.useDelay, sel);
    PickConcat(s.trace, a, sel);
    PickConcat(s.trace + a, b, sel);
  }

  /** A selector that ignores key and wait events picks nothing from an Advance block. */
  lemma AdvancePick<T>(page: nat, useDelay: bool, sel: Event -> Option<T>)
    requires sel(KeyPress).None? && sel(KeyRelease).None? && sel(ShortWait).None? && sel(LongWait).None?
    ensures Pick(Advance(page, useDelay), sel) == []
  {
    PickNone(Advance(page, useDelay), sel);
  }

  /**
   * After any number of iterations the loop holds the temporary files of
   * pages 1..m in order, one PDF page for each, and, unless it raised, each
   * page's image drawn on its own page; it holds all k pages while it runs.
   */
  lemma {:induction false} LoopFiles(k: nat, job: Job, running: bool, env: Env)
    ensures var s := LoopAfter(k, job, running, env);
      |s.files| <= k && s.files == Screenshots(|s.files|) && |s.doc| == |s.files| &&
      (s.status == Running ==> |s.files| == k) &&
      (s.status != Raised ==> s.doc == PlacedDoc(env, |s.files|))
  {
    if k > 0 {
      LoopFiles(k - 1, job, running, env);
      var s0 := LoopAfter(k - 1, job, running, env);
      if s0.status == Running && running && !env.stopBy(k) && !KeyFails(k, env) && env.shot(k).Grabbed? {
        ScreenshotsNext(k - 1);
        PlacedDocNext(env, k - 1);
      }
    }
  }

  /** The temporary files written, as the trace shows them, are the loop's list of files. */
  lemma {:induction false} LoopSaved(k: nat, job: Job, running: bool, env: Env)
    ensures var s := LoopAfter(k, job, running, env);
      Pick(s.trace, SavedFileOf) == s.files
  {
    if k > 0 {
      LoopSaved(k - 1, job, running, env);
      var s0 := LoopAfter(k - 1, job, running, env);
      if s0.status == Running && running && !env.stopBy(k) && !KeyFails(k, env) {
        StepPick(k, job, running, env, s0, SavedFileOf);
        StepShape(k, job, running, env, s0);
        TailSaved(k, job, env.shot(k));
      } else if s0.status == Running && running && !env.stopBy(k) {
        FaultPick(k, job, running, env, s0, SavedFileOf);
        FaultStep(k, job, running, env, s0);
      }
    }
  }

  /** An iteration reports its page exactly when it saves its file. */
  lemma StepReported(page: nat, job: Job, running: bool, env: Env, s: LoopState)
    requires s.status == Running && page >= 1
    requires |s.files| == page - 1 && Pick(s.trace, CapturedPageOf) == PageNumbers(page - 1)
    ensures var s' := Step(page, job, running, env, s);
      Pick(s'.trace, CapturedPageOf) == PageNumbers(|s'.files|)
  {
    if running && !env.stopBy(page) && !KeyFails(page, env) {
      StepPick(page, job, running, env, s, CapturedPageOf);
      StepShape(page, job, running, env, s);
      TailReported(page, job, env.shot(page));
      PageNumbersNext(page - 1);
    } else if running && !env.stopBy(page) {
      FaultPick(page, job, running, env, s, CapturedPageOf);
      FaultStep(page, job, running, env, s);
    }
  }

  /** The pages reported as captured are 1..m, one report per saved file, in increasing order. */
  lemma {:induction false} LoopReported(k: nat, job: Job, running: bool, env: Env)
    ensures var s := LoopAfter(k, job, running, env);
      Pick(s.trace, CapturedPageOf) == PageNumbers(|s.files|)
  {
    if k > 0 {
      LoopReported(k - 1, job, running, env);
      LoopFiles(k - 1, job, running, env);
      var s0 := LoopAfter(k - 1, job, running, env);
      if s0.status == Running {
        StepReported(k, job, running, env, s0);
      }
    }
  }

  /** The tail of an iteration adds a PDF page exactly when it saves a file. */
  lemma TailPages(page: nat, job: Job, shot: Shot)
    ensures Count(StepTail(page, job, shot), AddPage) == |SavedBy(page, shot)|
  {
    if shot.Grabbed? {
      CapturedCounts(page, job, AddPage);
    }
  }

  /** One PDF page is added per saved file. */
  lemma {:induction false} LoopPages(k: nat, job: Job, running: bool, env: Env)
    ensures var s := LoopAfter(k, job, running, env);
      Count(s.trace, AddPage) == |s.files|
  {
    if k > 0 {
      LoopPages(k - 1, job, running, env);
      var s0 := LoopAfter(k - 1, job, running, env);
      if s0.status == Running && running && !env.stopBy(k) && !KeyFails(k, env) {
        var a, b := Advance(k, job.useDelay), StepTail(k, job, env.shot(k));
        StepShape(k, job, running, env, s0);
        AdvanceCounts(k, job.useDelay, AddPage);
        TailPages(k, job, env.shot(k));
        CountConcat(s0.trace, a, AddPage);
        CountConcat(s0.trace + a, b, AddPage);
      } else if s0.status == Running && running && !env.stopBy(k) {
        FaultCount(k, job, running, env, s0, AddPage);
        FaultStep(k, job, running, env, s0);
      }
    }
  }

  /** Events of the page loop: never a write, a removal, an error or a finish. */
  predicate LoopEvent(e: Event)
  {
    !e.WritePdf? && !e.Remove? && !e.Error? && !e.Finished? && !(e.Progress? && e.msg.PdfSaved?)
  }

  predicate AllLoopEvents(t: seq<Event>)
  {
    forall i :: 0 <= i < |t| ==> LoopEvent(t[i])
  }

  lemma AllLoopEventsConcat(a: seq<Event>, b: seq<Event>)
    requires AllLoopEvents(a) && AllLoopEvents(b)
    ensures AllLoopEvents(a + b)
  {
    forall i | 0 <= i < |a + b| ensures LoopEvent((a + b)[i]) {
      if i < |a| { assert (a + b)[i] == a[i]; } else { assert (a + b)[i] == b[i - |a|]; }
    }
  }

  lemma {:induction false} LoopEventsOnly(k: nat, job: Job, running: bool, env: Env)
    ensures AllLoopEvents(LoopAfter(k, job, running, env).trace)
  {
    if k > 0 {
      LoopEventsOnly(k - 1, job, running, env);
      var s0 := LoopAfter(k - 1, job, running, env);
      if s0.status == Running {
        StepLoopEvents(k, job, running, env, s0);
      }
    }
  }

  /** An iteration adds only events of the page loop. */
  lemma StepLoopEvents(page: nat, job: Job, running: bool, env: Env, s: LoopState)
    requires s.status == Running && AllLoopEvents(s.trace)
    ensures AllLoopEvents(Step(page, job, running, env, s).trace)
  {
    if running && !env.stopBy(page) && !KeyFails(page, env) {
      var t := s.trace + Advance(page, job.useDelay);
      StepShape(page, job, running, env, s);
      AllLoopEventsConcat(s.trace, Advance(page, job.useDelay));
      AllLoopEventsConcat(t, StepTail(page, job, env.shot(page)));
    } else if running && !env.stopBy(page) {
      FaultStep(page, job, running, env, s);
      AllLoopEventsConcat(s.trace, KeysBeforeFault(env.keyFault(page)));
    }
  }

  /** Every grab that did not raise produced a saved file. */
  lemma {:induction false} LoopGrabs(k: nat, job: Job, running: bool, env: Env)
    ensures var s := LoopAfter(k, job, running, env);
      s.status != Raised ==> Count(s.trace, Grab(job.region)) == |s.files|
  {
    if k > 0 {
      LoopGrabs(k - 1, job, running, env);
      var s0 := LoopAfter(k - 1, job, running, env);
      if s0.status == Running && running && !env.stopBy(k) && !KeyFails(k, env) && env.shot(k).Grabbed? {
        var t := s0.trace + Advance(k, job.useDelay);
        AdvanceCounts(k, job.useDelay, Grab(job.region));
        CountConcat(s0.trace, Advance(k, job.useDelay), Grab(job.region));
        CapturedCounts(k, job, Grab(job.region));
        CountConcat(t, Captured(k, job), Grab(job.region));
      }
    }
  }

  /** Once the loop has broken off or raised, later iterations change nothing. */
  lemma {:induction false} LoopSettled(k: nat, n: nat, job: Job, running: bool, env: Env)
    requires k <= n && LoopAfter(k, job, running, env).status != Running
    ensures LoopAfter(n, job, running, env) == LoopAfter(k, job, running, env)
    decreases n
  {
    if n > k {
      LoopSettled(k, n - 1, job, running, env);
    }
  }

  /**
   * The loop only ever extends what it has produced: the trace, the list of
   * temporary files and the PDF after k iterations begin with those after p.
   */
  lemma {:induction false} LoopGrows(p: nat, k: nat, job: Job, running: bool, env: Env)
    requires p <= k
    ensures var a, b := LoopAfter(p, job, running, env), LoopAfter(k, job, running, env);
      a.trace <= b.trace && a.files <= b.files && a.doc <= b.doc
    decreases k
  {
    if p < k {
      LoopGrows(p, k - 1, job, running, env);
    }
  }

  /**
   * A page that is captured is laid out in one block, after everything of
   * the pages before it: its key press and waits, then its grab, temp file,
   * progress report and new PDF page, in that order.
   */
  lemma PageBlock(page: nat, job: Job, running: bool, env: Env)
    requires page >= 1
    requires LoopAfter(page, job, running, env).status == Running
    ensures LoopAfter(page - 1, job, running, env).status == Running
    ensures LoopAfter(page, job, running, env).trace ==
      LoopAfter(page - 1, job, running, env).trace + Advance(page, job.useDelay) +
      [Grab(job.region), SaveTemp(ScreenshotPage(page)),
       Progress(page, PageCaptured(page, job.totalPages)), AddPage]
  {
  }

  /**
   * A stop seen at the check of iteration k prevents the capture of page k and
   * of every later page, whatever else happens.
   */
  lemma StopPreventsCapture(k: nat, n: nat, job: Job, running: bool, env: Env)
    requires 1 <= k <= n && (env.stopBy(k) || !running)
    ensures LoopAfter(n, job, running, env).status != Running
    ensures |LoopAfter(n, job, running, env).files| < k
    ensures LoopAfter(k - 1, job, running, env).status == Running ==>
      LoopAfter(n, job, running, env).trace == LoopAfter(k - 1, job, running, env).trace
  {
    LoopFiles(k - 1, job, running, env);
    if LoopAfter(k - 1, job, running, env).status == Running {
      LoopNext(k, job, running, env);
      LoopSettled(k, n, job, running, env);
    } else {
      LoopSettled(k - 1, n, job, running, env);
    }
  }

  // ---------------------------------------------------------------------
  // A run without stop and without faults

  /**
   * With no stop and only successful grabs of non-zero width, k iterations
   * press and release the key once per page after the first, wait long
   * exactly then when slow loading is on, and grab k times.
   */
  lemma CleanLoop(k: nat, job: Job, env: Env)
    requires Clean(env, k)
    ensures var s := LoopAfter(k, job, true, env);
      s.status == Running &&
      Count(s.trace, KeyPress) == Advances(k) && Count(s.trace, KeyRelease) == Advances(k) &&
      Count(s.trace, LongWait) == (if job.useDelay then Advances(k) else 0) &&
      Count(s.trace, ShortWait) == k
  {
    CleanLoopRuns(k, job, env);
    CleanLoopCount(k, job, env, KeyPress);
    CleanLoopCount(k, job, env, KeyRelease);
    CleanLoopCount(k, job, env, LongWait);
    CleanLoopCount(k, job, env, ShortWait);
  }

  /** Pages that pass the check and capture a non-empty image keep the loop running. */
  lemma {:induction false} CleanLoopRuns(k: nat, job: Job, env: Env)
    requires Clean(env, k)
    ensures LoopAfter(k, job, true, env).status == Running
  {
    if k > 0 {
      CleanPrefix(env, k - 1, k);
      CleanLoopRuns(k - 1, job, env);
      LoopNext(k, job, true, env);
      assert env.shot(k).Grabbed? && env.shot(k).width > 0;
    }
  }

  /** The key and wait events of k clean pages: one short wait each, and the rest for every page after the first. */
  lemma {:induction false} CleanLoopCount(k: nat, job: Job, env: Env, e: Event)
    requires Clean(env, k) && KeyOrWait(e)
    ensures Count(LoopAfter(k, job, true, env).trace, e) == KeyWaitCount(k, job.useDelay, e)
  {
    if k > 0 {
      CleanPrefix(env, k - 1, k);
      CleanLoopCount(k - 1, job, env, e);
      CleanStepCount(k, job, env, e);
      AdvanceCounts(k, job.useDelay, e);
      KeyWaitCountNext(k, job.useDelay, e);
    }
  }

  /** How often a key or wait event occurs over k pages: one short wait each, and the rest for every page after the first. */
  function KeyWaitCount(k: nat, useDelay: bool, e: Event): nat
  {
    (if e == ShortWait then k else 0) +
    (if e == KeyPress || e == KeyRelease then Advances(k) else 0) +
    (if useDelay && e == LongWait then Advances(k) else 0)
  }

  /** Page k adds its key and wait events to those of the pages before it. */
  lemma KeyWaitCountNext(k: nat, useDelay: bool, e: Event)
    requires k >= 1
    ensures KeyWaitCount(k, useDelay, e) == KeyWaitCount(k - 1, useDelay, e) +
      (if e == ShortWait then 1 else 0) +
      (if k > 1 && (e == KeyPress || e == KeyRelease) then 1 else 0) +
      (if k > 1 && useDelay && e == LongWait then 1 else 0)
  {
  }

  /** A clean page adds exactly its key and wait events to the count of such an event. */
  lemma CleanStepCount(k: nat, job: Job, env: Env, e: Event)
    requires k >= 1 && Clean(env, k) && KeyOrWait(e)
    ensures Count(LoopAfter(k, job, true, env).trace, e) ==
      Count(LoopAfter(k - 1, job, true, env).trace, e) + Count(Advance(k, job.useDelay), e)
  {
    CleanPrefix(env, k - 1, k);
    CleanLoopRuns(k - 1, job, env);
    var s0 := LoopAfter(k - 1, job, true, env);
    LoopNext(k, job, true, env);
    StepCount(k, job, true, env, s0, e);
    QuietTail(k, job, env.shot(k), e);
  }

  /** Fewer pages are clean when more are. */
  lemma CleanPrefix(env: Env, j: nat, k: nat)
    requires j <= k && Clean(env, k)
    ensures Clean(env, j)
  {
  }

  /** The key and wait events, which only the start of an iteration produces. */
  predicate KeyOrWait(e: Event)
  {
    e == KeyPress || e == KeyRelease || e == LongWait || e == ShortWait
  }

  /** How often an event occurs after an iteration that passes the check. */
  lemma StepCount(page: nat, job: Job, running: bool, env: Env, s: LoopState, e: Event)
    requires s.status == Running && running && !env.stopBy(page) && !KeyFails(page, env)
    ensures Count(Step(page, job, running, env, s).trace, e) ==
      Count(s.trace, e) + Count(Advance(page, job.useDelay), e) + Count(StepTail(page, job, env.shot(page)), e)
  {
    var a, b := Advance(page, job.useDelay), StepTail(page, job, env.shot(page));
    StepShape(page, job, running, env, s);
    CountConcat(s.trace, a, e);
    CountConcat(s.trace + a, b, e);
  }

  /** The tail of an iteration holds no key or wait event. */
  lemma QuietTail(page: nat, job: Job, shot: Shot, e: Event)
    requires KeyOrWait(e)
    ensures Count(StepTail(page, job, shot), e) == 0
  {
    CountAbsent(StepTail(page, job, shot), e);
  }

  // ---------------------------------------------------------------------
  // Deleting the temporary files

  /**
   * The deletion loop attempts to remove every file, in order, whatever
   * fails; the errors it reports are exactly the failed files, in order.
   */
  lemma {:induction false} CleanupRemoves(files: seq<TempFile>, fails: TempFile -> bool)
    ensures Pick(Cleanup(files, fails), RemovedFileOf) == files
  {
    if files != [] {
      var f, rest := files[|files| - 1], files[..|files| - 1];
      var e: seq<Event> := if fails(f) then [Error(DeleteFailed(f))] else [];
      CleanupRemoves(rest, fails);
      PickConcat(Cleanup(rest, fails), [Remove(f)], RemovedFileOf);
      PickConcat(Cleanup(rest, fails) + [Remove(f)], e, RemovedFileOf);
      assert files == rest + [f];
    }
  }

  lemma {:induction false} CleanupErrors(files: seq<TempFile>, fails: TempFile -> bool)
    ensures Pick(Cleanup(files, fails), ErrorOf) == DeleteFailures(files, fails)
  {
    if files != [] {
      var f, rest := files[|files| - 1], files[..|files| - 1];
      var e: seq<Event> := if fails(f) then [Error(DeleteFailed(f))] else [];
      CleanupErrors(rest, fails);
      PickConcat(Cleanup(rest, fails), [Remove(f)], ErrorOf);
      PickConcat(Cleanup(rest, fails) + [Remove(f)], e, ErrorOf);
    }
  }

  /** The deletion loop only removes files and reports failed removals. */
  lemma {:induction false} CleanupEvents(files: seq<TempFile>, fails: TempFile -> bool)
    ensures forall i :: 0 <= i < |Cleanup(files, fails)| ==>
      Cleanup(files, fails)[i].Remove? || (Cleanup(files, fails)[i].Error? && Cleanup(files, fails)[i].kind.DeleteFailed?)
  {
    if files != [] {
      CleanupEvents(files[..|files| - 1], fails);
    }
  }

  /** Every reported deletion error names a file; none is the fatal error. */
  lemma {:induction false} DeleteFailuresNamed(files: seq<TempFile>, fails: TempFile -> bool)
    ensures forall i :: 0 <= i < |DeleteFailures(files, fails)| ==> DeleteFailures(files, fails)[i].DeleteFailed?
  {
    if files != [] {
      DeleteFailuresNamed(files[..|files| - 1], fails);
    }
  }

  // ---------------------------------------------------------------------
  // The whole run

  /** The finalisation holds no event of the page loop. */
  lemma FinaliseEvents(job: Job, env: Env, s: LoopState)
    ensures forall i :: 0 <= i < |Finalise(job, env, s)| ==> !LoopEvent(Finalise(job, env, s)[i])
  {
    var c := Cleanup(s.files, env.removeFails);
    CleanupEvents(s.files, env.removeFails);
    var u := Finalise(job, env, s);
    assert u == [WritePdf(s.doc), Progress(job.totalPages, PdfSaved)] + c + [Finished];
    forall i | 0 <= i < |u| ensures !LoopEvent(u[i]) {
      if 2 <= i < 2 + |c| {
        assert u[i] == c[i - 2];
      }
    }
  }

  /** A loop event occurs in a completed run as often as in its page loop. */
  lemma LoopEventCount(job: Job, env: Env, s: LoopState, e: Event)
    requires LoopEvent(e)
    ensures Count(s.trace + Finalise(job, env, s), e) == Count(s.trace, e)
  {
    FinaliseEvents(job, env, s);
    CountAbsent(Finalise(job, env, s), e);
    CountConcat(s.trace, Finalise(job, env, s), e);
  }

  /** What a selector picks from the finalisation, part by part. */
  lemma FinaliseSplit<T>(job: Job, env: Env, s: LoopState, sel: Event -> Option<T>)
    ensures Pick(Finalise(job, env, s), sel) ==
      Pick([WritePdf(s.doc), Progress(job.totalPages, PdfSaved)], sel) +
      Pick(Cleanup(s.files, env.removeFails), sel) + Pick([Finished], sel)
  {
    var c := Cleanup(s.files, env.removeFails);
    var head: seq<Event> := [WritePdf(s.doc), Progress(job.totalPages, PdfSaved)];
    assert Finalise(job, env, s) == head + c + [Finished];
    PickConcat(head, c, sel);
    PickConcat(head + c, [Finished], sel);
  }

  /** The finalisation saves no file and reports no captured page. */
  lemma FinaliseQuiet(job: Job, env: Env, s: LoopState)
    ensures Pick(Finalise(job, env, s), SavedFileOf) == []
    ensures Pick(Finalise(job, env, s), CapturedPageOf) == []
  {
    FinaliseEvents(job, env, s);
    PickNone(Finalise(job, env, s), SavedFileOf);
    PickNone(Finalise(job, env, s), CapturedPageOf);
  }

  /** The finalisation removes the loop's files, in order. */
  lemma FinaliseRemoves(job: Job, env: Env, s: LoopState)
    ensures Pick(Finalise(job, env, s), RemovedFileOf) == s.files
  {
    CleanupRemoves(s.files, env.removeFails);
    FinaliseSplit(job, env, s, RemovedFileOf);
    PickNone([WritePdf(s.doc), Progress(job.totalPages, PdfSaved)], RemovedFileOf);
    PickNone([Finished], RemovedFileOf);
  }

  /** The finalisation reports exactly the failed removals, in order. */
  lemma FinaliseErrors(job: Job, env: Env, s: LoopState)
    ensures Pick(Finalise(job, env, s), ErrorOf) == DeleteFailures(s.files, env.removeFails)
  {
    CleanupErrors(s.files, env.removeFails);
    FinaliseSplit(job, env, s, ErrorOf);
    PickNone([WritePdf(s.doc), Progress(job.totalPages, PdfSaved)], ErrorOf);
    PickNone([Finished], ErrorOf);
  }

  /** The finalisation ends with its one finish signal. */
  lemma FinaliseFinishes(job: Job, env: Env, s: LoopState)
    ensures var u := Finalise(job, env, s);
      Count(u, Finished) == 1 && u[|u| - 1] == Finished
  {
    var c := Cleanup(s.files, env.removeFails);
    var head: seq<Event> := [WritePdf(s.doc), Progress(job.totalPages, PdfSaved)];
    CleanupEvents(s.files, env.removeFails);
    assert Finalise(job, env, s) == head + c + [Finished];
    assert Finished !in head + c by {
      forall i | 0 <= i < |head + c| ensures (head + c)[i] != Finished {
        if i >= 2 { assert (head + c)[i] == c[i - 2]; }
      }
    }
    CountAbsent(head + c, Finished);
    CountConcat(head + c, [Finished], Finished);
  }

  /**
   * A run that neither raised nor failed to write the PDF: it writes the PDF
   * as the loop built it, reports the save with the full page count, tries to
   * delete every temporary file in order, reports exactly the failed
   * deletions, and ends with the one finish signal.
   */
  lemma CompletedRun(job: Job, running: bool, env: Env)
    requires !FatalRun(env, LoopAfter(job.totalPages, job, running, env))
    ensures var s, t := LoopAfter(job.totalPages, job, running, env), RunTrace(job, running, env);
      t == s.trace + Finalise(job, env, s) &&
      WritePdf(s.doc) in t && Progress(job.totalPages, PdfSaved) in t &&
      Pick(t, SavedFileOf) == s.files &&
      Pick(t, RemovedFileOf) == s.files &&
      Pick(t, CapturedPageOf) == PageNumbers(|s.files|) &&
      Pick(t, ErrorOf) == DeleteFailures(s.files, env.removeFails) &&
      Count(t, Finished) == 1 && t[|t| - 1] == Finished
  {
    var s := LoopAfter(job.totalPages, job, running, env);
    LoopSaved(job.totalPages, job, running, env);
    LoopReported(job.totalPages, job, running, env);
    LoopEventsOnly(job.totalPages, job, running, env);
    FinalisedWrites(job, env, s);
    FinalisedRecords(job, env, s, PageNumbers(|s.files|));
    FinalisedRemovals(job, env, s);
    FinalisedFinish(job, env, s);
  }

  /** After the loop, the finalisation writes the PDF and reports the save. */
  lemma FinalisedWrites(job: Job, env: Env, s: LoopState)
    ensures var t := s.trace + Finalise(job, env, s);
      WritePdf(s.doc) in t && Progress(job.totalPages, PdfSaved) in t
  {
    var t := s.trace + Finalise(job, env, s);
    assert t[|s.trace|] == WritePdf(s.doc);
    assert t[|s.trace| + 1] == Progress(job.totalPages, PdfSaved);
  }

  /** The finalisation adds no saved file and no page report to what the loop recorded. */
  lemma FinalisedRecords(job: Job, env: Env, s: LoopState, pages: seq<nat>)
    requires Pick(s.trace, SavedFileOf) == s.files && Pick(s.trace, CapturedPageOf) == pages
    ensures var t := s.trace + Finalise(job, env, s);
      Pick(t, SavedFileOf) == s.files && Pick(t, CapturedPageOf) == pages
  {
    FinaliseQuiet(job, env, s);
    PickConcat(s.trace, Finalise(job, env, s), SavedFileOf);
    PickConcat(s.trace, Finalise(job, env, s), CapturedPageOf);
  }

  /** The removals and deletion errors of a completed run are those of the finalisation alone. */
  lemma FinalisedRemovals(job: Job, env: Env, s: LoopState)
    requires AllLoopEvents(s.trace)
    ensures var t := s.trace + Finalise(job, env, s);
      Pick(t, RemovedFileOf) == s.files && Pick(t, ErrorOf) == DeleteFailures(s.files, env.removeFails)
  {
    FinaliseRemoves(job, env, s);
    FinaliseErrors(job, env, s);
    PickNone(s.trace, RemovedFileOf);
    PickNone(s.trace, ErrorOf);
    PickConcat(s.trace, Finalise(job, env, s), RemovedFileOf);
    PickConcat(s.trace, Finalise(job, env, s), ErrorOf);
  }

  /** A completed run signals its finish once, as its last event. */
  lemma FinalisedFinish(job: Job, env: Env, s: LoopState)
    requires AllLoopEvents(s.trace)
    ensures var t := s.trace + Finalise(job, env, s);
      Count(t, Finished) == 1 && t[|t| - 1] == Finished
  {
    FinaliseFinishes(job, env, s);
    CountAbsent(s.trace, Finished);
    CountConcat(s.trace, Finalise(job, env, s), Finished);
  }

  /**
   * An exception in the page loop or in the PDF write: the run ends with
   * exactly one error, the fatal one, and never signals that it finished.
   */
  lemma FailedRun(job: Job, running: bool, env: Env)
    requires FatalRun(env, LoopAfter(job.totalPages, job, running, env))
    ensures var s, t := LoopAfter(job.totalPages, job, running, env), RunTrace(job, running, env);
      t == s.trace + [Error(Fatal)] &&
      Pick(t, ErrorOf) == [Fatal] && Count(t, Finished) == 0 &&
      WritePdf(s.doc) !in t && Pick(t, RemovedFileOf) == []
  {
    var s := LoopAfter(job.totalPages, job, running, env);
    LoopEventsOnly(job.totalPages, job, running, env);
    PickNone(s.trace, ErrorOf);
    PickNone(s.trace, RemovedFileOf);
    PickConcat(s.trace, [Error(Fatal)], ErrorOf);
    PickConcat(s.trace, [Error(Fatal)], RemovedFileOf);
    CountAbsent(s.trace + [Error(Fatal)], Finished);
  }

  /**
   * Every run ends in exactly one of two ways: the finish signal, with no
   * fatal error, or one fatal error, with no finish signal.
   */
  lemma OneOutcome(job: Job, running: bool, env: Env)
    ensures var t := RunTrace(job, running, env);
      (t[|t| - 1] == Finished && Count(t, Finished) == 1 && Fatal !in Pick(t, ErrorOf)) ||
      (t[|t| - 1] == Error(Fatal) && Count(t, Finished) == 0 && Pick(t, ErrorOf) == [Fatal])
  {
    var s := LoopAfter(job.totalPages, job, running, env);
    if FatalRun(env, s) {
      FailedRun(job, running, env);
    } else {
      CompletedRun(job, running, env);
      DeleteFailuresNamed(s.files, env.removeFails);
    }
  }

  /**
   * A run of N pages with no stop and no fault grabs, saves, reports and adds
   * a PDF page for each of pages 1..N in order; presses and releases the key
   * N - 1 times; waits long N - 1 times exactly when slow loading is on;
   * writes the PDF with every page's image; removes all N files; and finishes.
   */
  lemma CleanRun(job: Job, env: Env)
    requires job.totalPages >= 1 && Clean(env, job.totalPages) && !env.writeFails
    ensures var n, t := job.totalPages, RunTrace(job, true, env);
      Count(t, Grab(job.region)) == n && Count(t, AddPage) == n &&
      Pick(t, SavedFileOf) == Screenshots(n) &&
      Pick(t, CapturedPageOf) == PageNumbers(n) &&
      Count(t, KeyPress) == n - 1 && Count(t, KeyRelease) == n - 1 &&
      Count(t, LongWait) == (if job.useDelay then n - 1 else 0) &&
      WritePdf(PlacedDoc(env, n)) in t &&
      Pick(t, RemovedFileOf) == Screenshots(n) &&
      t[|t| - 1] == Finished
  {
    var n := job.totalPages;
    var s := LoopAfter(n, job, true, env);
    CleanLoop(n, job, env);
    LoopFiles(n, job, true, env);
    LoopGrabs(n, job, true, env);
    LoopPages(n, job, true, env);
    CompletedRun(job, true, env);
    LoopEventCount(job, env, s, Grab(job.region));
    LoopEventCount(job, env, s, AddPage);
    LoopEventCount(job, env, s, KeyPress);
    LoopEventCount(job, env, s, KeyRelease);
    LoopEventCount(job, env, s, LongWait);
  }

  /**
   * Stop seen first at the check of page k: pages 1..k-1 are grabbed, saved
   * and added, page k and later ones are not; the PDF is still written and
   * the save is still reported with the full page count; the k-1 files are
   * removed and the run finishes.
   */
  lemma CancelledRun(job: Job, env: Env, k: nat)
    requires 1 <= k <= job.totalPages && Clean(env, k - 1) && env.stopBy(k) && !env.writeFails
    ensures var t := RunTrace(job, true, env);
      Count(t, Grab(job.region)) == k - 1 && Count(t, AddPage) == k - 1 &&
      Pick(t, SavedFileOf) == Screenshots(k - 1) &&
      Pick(t, CapturedPageOf) == PageNumbers(k - 1) &&
      WritePdf(PlacedDoc(env, k - 1)) in t &&
      Progress(job.totalPages, PdfSaved) in t &&
      Pick(t, RemovedFileOf) == Screenshots(k - 1) &&
      t[|t| - 1] == Finished
  {
    var n := job.totalPages;
    var s := LoopAfter(n, job, true, env);
    CancelledLoop(job, env, k);
    LoopGrabs(n, job, true, env);
    LoopPages(n, job, true, env);
    CompletedRun(job, true, env);
    LoopEventCount(job, env, s, Grab(job.region));
    LoopEventCount(job, env, s, AddPage);
  }

  /** A stop seen at the check of page k leaves the loop with pages 1..k-1 saved and placed. */
  lemma CancelledLoop(job: Job, env: Env, k: nat)
    requires 1 <= k <= job.totalPages && Clean(env, k - 1) && env.stopBy(k)
    ensures var s := LoopAfter(job.totalPages, job, true, env);
      s.status == Cancelled && |s.files| == k - 1 &&
      s.files == Screenshots(k - 1) && s.doc == PlacedDoc(env, k - 1)
  {
    CleanLoopRuns(k - 1, job, env);
    LoopFiles(k - 1, job, true, env);
    LoopNext(k, job, true, env);
    LoopSettled(k, job.totalPages, job, true, env);
  }

  /**
   * A grab of zero width passes the grab, the save, the progress report and
   * the new page, then fails at the aspect-ratio division: the run ends with
   * the fatal error and does not finish.
   */
  lemma ZeroWidthRun(job: Job, env: Env, k: nat, h: nat)
    requires 1 <= k <= job.totalPages && Clean(env, k - 1) && !env.stopBy(k) && !KeyFails(k, env)
    requires env.shot(k) == Grabbed(0, h)
    ensures var t := RunTrace(job, true, env);
      t == LoopAfter(k - 1, job, true, env).trace + Advance(k, job.useDelay) +
           Captured(k, job) + [Error(Fatal)] &&
      Count(t, Finished) == 0 && Pick(t, ErrorOf) == [Fatal]
  {
    CleanLoopRuns(k - 1, job, env);
    LoopNext(k, job, true, env);
    LoopSettled(k, job.totalPages, job, true, env);
    FailedRun(job, true, env);
  }

  /**
   * When the document or the capture context cannot be created, the run
   * does nothing but signal the fatal error.
   */
  lemma OpenFailsRun(job: Job, running: bool, env: Env)
    requires env.openFails
    ensures LoopAfter(job.totalPages, job, running, env).status == Raised
    ensures RunTrace(job, running, env) == [Error(Fatal)]
  {
    LoopSettled(0, job.totalPages, job, running, env);
  }

  /**
   * A key press or release that raises at page k ends the run with the fatal
   * error right after what the key step produced: no grab of page k, no PDF
   * write, no finish; a failed press leaves no press of page k in the trace.
   */
  lemma KeyFaultRun(job: Job, env: Env, k: nat)
    requires 1 <= k <= job.totalPages && Clean(env, k - 1) && !env.stopBy(k) && KeyFails(k, env)
    ensures var t := RunTrace(job, true, env);
      t == LoopAfter(k - 1, job, true, env).trace + KeysBeforeFault(env.keyFault(k)) + [Error(Fatal)] &&
      Count(t, Grab(job.region)) == k - 1 &&
      Count(t, KeyPress) == (if env.keyFault(k).PressFails? then k - 2 else k - 1) &&
      Count(t, Finished) == 0 && Pick(t, ErrorOf) == [Fatal]
  {
    var s0 := LoopAfter(k - 1, job, true, env);
    var a := KeysBeforeFault(env.keyFault(k));
    CleanLoopRuns(k - 1, job, env);
    LoopNext(k, job, true, env);
    FaultStep(k, job, true, env, s0);
    LoopSettled(k, job.totalPages, job, true, env);
    FailedRun(job, true, env);
    KeyFaultGrabs(job, env, k, s0, a);
    KeyFaultPresses(job, env, k, s0, a);
  }

  /** A run that raised at the key step of page k grabbed pages 1..k-1 only. */
  lemma KeyFaultGrabs(job: Job, env: Env, k: nat, s0: LoopState, a: seq<Event>)
    requires 1 <= k && Clean(env, k - 1) && KeyFails(k, env)
    requires s0 == LoopAfter(k - 1, job, true, env) && a == KeysBeforeFault(env.keyFault(k))
    ensures Count(s0.trace + a + [Error(Fatal)], Grab(job.region)) == k - 1
  {
    CleanLoopRuns(k - 1, job, env);
    RunningGrabs(k - 1, job, true, env);
    FaultTailCount(s0.trace, env.keyFault(k), Grab(job.region));
  }

  /** While the loop runs, it has grabbed every page so far. */
  lemma RunningGrabs(k: nat, job: Job, running: bool, env: Env)
    requires LoopAfter(k, job, running, env).status == Running
    ensures Count(LoopAfter(k, job, running, env).trace, Grab(job.region)) == k
  {
    LoopFiles(k, job, running, env);
    LoopGrabs(k, job, running, env);
  }

  /** A failed key step and the fatal error add no other event. */
  lemma FaultTailCount(t: seq<Event>, f: KeyFault, e: Event)
    requires e != KeyPress && e != ShortWait && e != Error(Fatal)
    ensures Count(t + KeysBeforeFault(f) + [Error(Fatal)], e) == Count(t, e)
  {
    var u := KeysBeforeFault(f) + [Error(Fatal)];
    CountAbsent(u, e);
    CountConcat(t, u, e);
    assert t + KeysBeforeFault(f) + [Error(Fatal)] == t + u;
  }

  /** The key presses of a run that raised at the key step of page k: one more when only the release raised. */
  lemma KeyFaultPresses(job: Job, env: Env, k: nat, s0: LoopState, a: seq<Event>)
    requires 1 <= k && Clean(env, k - 1) && KeyFails(k, env)
    requires s0 == LoopAfter(k - 1, job, true, env) && a == KeysBeforeFault(env.keyFault(k))
    ensures Count(s0.trace + a + [Error(Fatal)], KeyPress) ==
      (if env.keyFault(k).PressFails? then k - 2 else k - 1)
  {
    CleanLoopCount(k - 1, job, env, KeyPress);
    FaultTailPresses(s0.trace, env.keyFault(k));
  }

  /** A failed key step adds the press only when the release raised; the fatal error adds none. */
  lemma FaultTailPresses(t: seq<Event>, f: KeyFault)
    ensures Count(t + KeysBeforeFault(f) + [Error(Fatal)], KeyPress) ==
      Count(t, KeyPress) + (if f.ReleaseFails? then 1 else 0)
  {
    var a := KeysBeforeFault(f);
    CountConcat(t, a, KeyPress);
    CountConcat(t + a, [Error(Fatal)], KeyPress);
    CountOne(Error(Fatal), KeyPress);
    if f.ReleaseFails? {
      assert a == [KeyPress] + [ShortWait];
      CountConcat([KeyPress], [ShortWait], KeyPress);
      CountOne(KeyPress, KeyPress);
      CountOne(ShortWait, KeyPress);
    } else {
      assert a == [];
    }
  }

  /** Every key press in `t` comes after a grab of `region`. */
  predicate KeysAfterGrab(t: seq<Event>, region: BBox)
  {
    forall i :: 0 <= i < |t| && t[i] == KeyPress ==> Grab(region) in t[..i]
  }

  /**
   * No key is pressed before page 1 has been grabbed: the loop presses the
   * key only for pages after the first, and only once the page before was
   * captured.
   */
  lemma {:induction false} LoopKeysAfterGrab(k: nat, job: Job, running: bool, env: Env)
    ensures KeysAfterGrab(LoopAfter(k, job, running, env).trace, job.region)
  {
    if k > 0 {
      LoopKeysAfterGrab(k - 1, job, running, env);
      var s0 := LoopAfter(k - 1, job, running, env);
      if s0.status == Running && running && !env.stopBy(k) && !KeyFails(k, env) {
        StepShape(k, job, running, env, s0);
        if k > 1 {
          GrabbedSoFar(k - 1, job, running, env);
        }
        TailHasNoKeys(k, job, env.shot(k));
        KeysAfterGrabExtend(s0.trace, Advance(k, job.useDelay), StepTail(k, job, env.shot(k)), job.region);
      } else if s0.status == Running && running && !env.stopBy(k) {
        var a := KeysBeforeFault(env.keyFault(k));
        FaultStep(k, job, running, env, s0);
        GrabbedSoFar(k - 1, job, running, env);
        KeysAfterGrabExtend(s0.trace, a, [], job.region);
        assert s0.trace + a + [] == s0.trace + a;
      }
    }
  }

  /** Once page k >= 1 has been captured and the loop runs on, the trace holds a grab. */
  lemma GrabbedSoFar(k: nat, job: Job, running: bool, env: Env)
    requires k >= 1 && LoopAfter(k, job, running, env).status == Running
    ensures Grab(job.region) in LoopAfter(k, job, running, env).trace
  {
    RunningGrabs(k, job, running, env);
    CountAbsent(LoopAfter(k, job, running, env).trace, Grab(job.region));
  }

  /** The key is pressed only before a grab, never after it. */
  lemma TailHasNoKeys(page: nat, job: Job, shot: Shot)
    ensures KeyPress !in StepTail(page, job, shot)
  {
  }

  /** Appending to a trace keeps every key press after a grab, if the new presses come after one. */
  lemma KeysAfterGrabExtend(t: seq<Event>, a: seq<Event>, b: seq<Event>, region: BBox)
    requires KeysAfterGrab(t, region)
    requires Grab(region) in t || KeyPress !in a
    requires KeyPress !in b
    ensures KeysAfterGrab(t + a + b, region)
  {
    var u := t + a + b;
    forall i | 0 <= i < |u| && u[i] == KeyPress ensures Grab(region) in u[..i] {
      if i < |t| {
        assert u[..i] == t[..i];
      } else {
        assert i < |t| + |a| && u[i] == a[i - |t|];
        var j :| 0 <= j < |t| && t[j] == Grab(region);
        assert u[..i][j] == Grab(region);
      }
    }
  }

  /** In a whole run, too, every key press follows a grab. */
  lemma RunKeysAfterGrab(job: Job, running: bool, env: Env)
    ensures KeysAfterGrab(RunTrace(job, running, env), job.region)
  {
    var s := LoopAfter(job.totalPages, job, running, env);
    var t := RunTrace(job, running, env);
    LoopKeysAfterGrab(job.totalPages, job, running, env);
    var u: seq<Event> := if FatalRun(env, s) then [Error(Fatal)] else Finalise(job, env, s);
    assert t == s.trace + u;
    FinaliseEvents(job, env, s);
    assert forall j :: 0 <= j < |u| ==> !LoopEvent(u[j]);
    forall i | |s.trace| <= i < |t| ensures t[i] != KeyPress {
      assert t[i] == u[i - |s.trace|];
    }
    forall i | 0 <= i < |t| && t[i] == KeyPress ensures Grab(job.region) in t[..i] {
      assert t[..i] == s.trace[..i];
    }
  }
}
