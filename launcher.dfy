/**
 * The part of MainWindow that decides whether and how a capture starts: the
 * page-count spin box (bounded to 1..1000), the selected region, the
 * slow-loading check box, and start_capture, which does nothing until a
 * region has been selected and otherwise disables the controls and creates
 * the worker with the region, the spin box value and the check box state.
 */
module Launcher {
  import opened Options
  import opened Selection
  import opened CaptureTrace
  import CaptureProperties

  const MinPages: int := 1
  const MaxPages: int := 1000

  /** The value a QSpinBox bounded to MinPages..MaxPages holds after a request for `requested`. */
  function SpinValue(requested: int): (v: int)
    ensures MinPages <= v <= MaxPages
    ensures MinPages <= requested <= MaxPages ==> v == requested
  {
    if requested < MinPages then MinPages
    else if requested > MaxPages then MaxPages
    else requested
  }

  /** The spin box keeps the allowed value nearest to the request. */
  lemma SpinValueNearest(requested: int, u: int)
    requires MinPages <= u <= MaxPages
    ensures Abs(SpinValue(requested) - requested) <= Abs(u - requested)
  {
  }

  /**
   * What start_capture hands to the worker: nothing without a selected region;
   * otherwise the region, the page count and the slow-loading option.
   */
  function Launch(bbox: Option<BBox>, pageCount: int, delay: bool): (r: Option<Job>)
    requires MinPages <= pageCount <= MaxPages
    ensures r.None? <==> bbox.None?
    ensures r.Some? ==>
      r.value.region == bbox.value && r.value.totalPages == pageCount &&
      1 <= r.value.totalPages <= 1000 && r.value.useDelay == delay
  {
    match bbox
    case None => None
    case Some(b) => Some(Job(b, pageCount, delay))
  }

  /**
   * A launched job whose pages all pass the check and capture a non-empty
   * image, and whose PDF write succeeds, grabs between 1 and 1000 pages,
   * presses the key one time fewer and ends with the finish signal.
   */
  lemma LaunchedCleanRun(bbox: Option<BBox>, pageCount: int, delay: bool, env: Env)
    requires MinPages <= pageCount <= MaxPages
    requires Launch(bbox, pageCount, delay).Some?
    requires Clean(env, pageCount) && !env.writeFails
    ensures var job := Launch(bbox, pageCount, delay).value;
      var t := RunTrace(job, true, env);
      1 <= Count(t, Grab(job.region)) <= 1000 &&
      Count(t, KeyPress) == Count(t, Grab(job.region)) - 1 &&
      Count(t, KeyRelease) == Count(t, KeyPress) &&
      t[|t| - 1] == Finished
  {
    var job := Launch(bbox, pageCount, delay).value;
    CaptureProperties.CleanRun(job, env);
  }

  class MainWindow {
    /** The region chosen in the selection window, if any. */
    var bbox: Option<BBox>
    /** The page-count spin box's value. */
    var pageCount: int
    /** The slow-loading check box. */
    var delayChecked: bool
    /** The select button, the spin box and the check box accept input. */
    var controlsEnabled: bool
    var startEnabled: bool
    /** The parameters of the worker created by the last start, if any. */
    var job: Option<Job>

    /** The spin box never holds a value outside its bounds. */
    predicate Valid()
      reads this
    {
      MinPages <= pageCount <= MaxPages
    }

    constructor ()
      ensures Valid()
      ensures bbox.None? && pageCount == 1 && !delayChecked
      ensures controlsEnabled && !startEnabled && job.None?
    {
      bbox := None;
      pageCount := 1;
      delayChecked := false;
      controlsEnabled := true;
      startEnabled := false;
      job := None;
    }

    /** The user sets the spin box; it keeps the nearest allowed value. */
    method SetPageCount(requested: int)
      requires Valid()
      modifies this`pageCount
      ensures Valid()
      ensures pageCount == SpinValue(requested)
    {
      pageCount := SpinValue(requested);
    }

    /** The selection window reported a region: remember it and enable the start button. */
    method AreaSelected(b: BBox)
      requires Valid()
      modifies this`bbox, this`startEnabled
      ensures Valid()
      ensures bbox == Some(b) && startEnabled
    {
      bbox := Some(b);
      startEnabled := true;
    }

    /**
     * Start a capture. Without a selected region nothing happens; otherwise
     * every control is disabled and a worker is created from the region, the
     * spin box value and the check box.
     */
    method StartCapture() returns (started: Option<Job>)
      requires Valid()
      modifies this`controlsEnabled, this`startEnabled, this`job
      ensures Valid()
      ensures started == Launch(bbox, pageCount, delayChecked)
      ensures started.None? ==>
        controlsEnabled == old(controlsEnabled) && startEnabled == old(startEnabled) && job == old(job)
      ensures started.Some? ==> !controlsEnabled && !startEnabled && job == started
    {
      if bbox.None? {
        return None;
      }
      controlsEnabled := false;
      startEnabled := false;
      started := Some(Job(bbox.value, pageCount, delayChecked));
      job := started;
    }
  }
}
