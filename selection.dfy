/**
 * The region selector (SelectionWindow in main.py): the user drags a
 * rectangle on a full-screen overlay; on release the two drag endpoints are
 * normalised into a box whose left/top corner is the coordinate-wise minimum
 * and whose width/height are non-negative. While dragging, the overlay draws
 * the same rectangle.
 */
module Selection {
  import opened Options

  /** A widget-local mouse position (QPoint). */
  datatype Point = Point(x: int, y: int)

  /** The emitted `bbox` dictionary: {top, left, width, height}. */
  datatype BBox = BBox(left: int, top: int, width: int, height: int)

  datatype Button = LeftButton | OtherButton

  function Min(a: int, b: int): int { if a <= b then a else b }
  function Max(a: int, b: int): int { if a <= b then b else a }
  function Abs(a: int): int { if a < 0 then -a else a }

  /** True when the point lies in the closed rectangle of `b`. */
  predicate Covers(b: BBox, p: Point)
  {
    b.left <= p.x <= b.left + b.width && b.top <= p.y <= b.top + b.height
  }

  /** True when every point of `inner` lies in `outer`. */
  predicate Encloses(outer: BBox, inner: BBox)
  {
    outer.left <= inner.left && inner.left + inner.width <= outer.left + outer.width &&
    outer.top <= inner.top && inner.top + inner.height <= outer.top + outer.height
  }

  /**
   * The normalisation done on release: left/top are the minima of the two
   * endpoints, width/height the absolute differences. Its contract says that
   * the box spans exactly from the smaller to the larger coordinate on each axis.
   */
  function Normalize(start: Point, end: Point): (b: BBox)
    ensures b.width >= 0 && b.height >= 0
    ensures b.left == Min(start.x, end.x) && b.top == Min(start.y, end.y)
    ensures b.left + b.width == Max(start.x, end.x)
    ensures b.top + b.height == Max(start.y, end.y)
  {
    BBox(Min(start.x, end.x), Min(start.y, end.y), Abs(end.x - start.x), Abs(end.y - start.y))
  }

  /**
   * The rectangle painted while dragging, written with the paint handler's own
   * operand order (current minus start).
   */
  function PaintRect(start: Point, current: Point): BBox
  {
    BBox(Min(start.x, current.x), Min(start.y, current.y),
         Abs(current.x - start.x), Abs(current.y - start.y))
  }

  /** Swapping the two drag endpoints does not change the selection. */
  lemma NormalizeSymmetric(a: Point, b: Point)
    ensures Normalize(a, b) == Normalize(b, a)
  {
  }

  /** Both drag endpoints lie inside the selected box. */
  lemma NormalizeCoversEndpoints(a: Point, b: Point)
    ensures Covers(Normalize(a, b), a) && Covers(Normalize(a, b), b)
  {
  }

  /**
   * The selected box is the smallest one that holds both endpoints: any box
   * with non-negative extent covering them encloses it.
   */
  lemma NormalizeIsSmallest(a: Point, b: Point, other: BBox)
    requires Covers(other, a) && Covers(other, b)
    ensures Encloses(other, Normalize(a, b))
  {
  }

  /** The preview drawn while dragging is the box that release emits. */
  lemma PaintRectIsSelection(start: Point, current: Point)
    ensures PaintRect(start, current) == Normalize(start, current)
  {
  }

  /**
   * Python truthiness of an optional QPoint, as the release and paint guards
   * test it: None is false, and so is the null point (0, 0).
   */
  predicate Truthy(p: Option<Point>)
  {
    p.Some? && (p.value.x != 0 || p.value.y != 0)
  }

  /**
   * What a release emits, with the guard as written: a left release while
   * selecting emits the normalised box when both positions are truthy.
   */
  function ReleaseEmits(start: Option<Point>, current: Option<Point>, selecting: bool, button: Button): (r: Option<BBox>)
    ensures r.Some? <==> button == LeftButton && selecting && Truthy(start) && Truthy(current)
    ensures r.Some? ==> Covers(r.value, start.value) && Covers(r.value, current.value)
  {
    if button == LeftButton && selecting && Truthy(start) && Truthy(current) then
      NormalizeCoversEndpoints(start.value, current.value);
      Some(Normalize(start.value, current.value))
    else None
  }

  /** A drag that starts in the overlay's top-left corner is dropped on release. */
  lemma CornerDragDropped(current: Point)
    ensures ReleaseEmits(Some(Point(0, 0)), Some(current), true, LeftButton) == None
  {
  }

  /** The release the guard evidently intends: both positions have been recorded. */
  function IntendedRelease(start: Option<Point>, current: Option<Point>, selecting: bool, button: Button): (r: Option<BBox>)
    ensures r.Some? <==> button == LeftButton && selecting && start.Some? && current.Some?
  {
    if button == LeftButton && selecting && start.Some? && current.Some? then
      Some(Normalize(start.value, current.value))
    else None
  }

  /**
   * The intended release emits a box holding both endpoints for every
   * completed drag, and agrees with the guard as written except when an
   * endpoint is the origin.
   */
  lemma IntendedReleaseEmits(start: Point, current: Point)
    ensures var r := IntendedRelease(Some(start), Some(current), true, LeftButton);
      r.Some? && Covers(r.value, start) && Covers(r.value, current)
    ensures start != Point(0, 0) && current != Point(0, 0) ==>
      ReleaseEmits(Some(start), Some(current), true, LeftButton) ==
      IntendedRelease(Some(start), Some(current), true, LeftButton)
  {
    NormalizeCoversEndpoints(start, current);
  }

  /**
   * The overlay window. `startPos` is set on a left press, `currentPos` on
   * every move while selecting; a left release ends the selection and, when
   * both positions pass the guard, emits the normalised box.
   */
  class SelectionWindow {
    var startPos: Option<Point>
    var currentPos: Option<Point>
    var isSelecting: bool

    constructor ()
      ensures startPos == None && currentPos == None && !isSelecting
    {
      startPos := None;
      currentPos := None;
      isSelecting := false;
    }

    /** The rectangle the paint handler draws now, if it draws one. */
    function Preview(): (r: Option<BBox>)
      reads this
      ensures r.Some? <==> Truthy(startPos) && Truthy(currentPos) && isSelecting
      ensures r.Some? ==> Covers(r.value, startPos.value) && Covers(r.value, currentPos.value)
    {
      if Truthy(startPos) && Truthy(currentPos) && isSelecting then
        PaintRectIsSelection(startPos.value, currentPos.value);
        NormalizeCoversEndpoints(startPos.value, currentPos.value);
        Some(PaintRect(startPos.value, currentPos.value))
      else None
    }

    method MousePress(button: Button, pos: Point)
      modifies this
      ensures button == LeftButton ==> startPos == Some(pos) && isSelecting
      ensures button == LeftButton ==> currentPos == old(currentPos)
      ensures button != LeftButton ==> unchanged(this)
    {
      if button == LeftButton {
        startPos := Some(pos);
        isSelecting := true;
      }
    }

    method MouseMove(pos: Point)
      modifies this
      ensures startPos == old(startPos) && isSelecting == old(isSelecting)
      ensures currentPos == if old(isSelecting) then Some(pos) else old(currentPos)
    {
      if isSelecting {
        currentPos := Some(pos);
      }
    }

    /**
     * A left release while selecting ends the selection; the box emitted is
     * exactly the one that was being previewed, so nothing is emitted when
     * the preview was not drawn.
     */
    method MouseRelease(button: Button) returns (emitted: Option<BBox>)
      modifies this
      ensures emitted == ReleaseEmits(old(startPos), old(currentPos), old(isSelecting), button)
      ensures emitted == if button == LeftButton then old(Preview()) else None
      ensures startPos == old(startPos) && currentPos == old(currentPos)
      ensures isSelecting == (old(isSelecting) && button != LeftButton)
    {
      emitted := None;
      if button == LeftButton && isSelecting {
        isSelecting := false;
        if Truthy(startPos) && Truthy(currentPos) {
          var x1, y1 := startPos.value.x, startPos.value.y;
          var x2, y2 := currentPos.value.x, currentPos.value.y;
          var left := Min(x1, x2);
          var top := Min(y1, y2);
          var width := Abs(x2 - x1);
          var height := Abs(y2 - y1);
          emitted := Some(BBox(left, top, width, height));
        }
      }
    }
  }
}
