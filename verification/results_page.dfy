/**
 The results page: a guard that offers only a restart when there is no
 result to show, the zoom-and-pan image viewer, the export file name, and
 the way back to the products step.
 */
module ResultsPage {
  import opened Types
  import opened Strings
  import opened AppContext

  datatype Point = Point(x: real, y: real)

  const Origin: Point := Point(0.0, 0.0)

  const MinZoom: real := 1.0
  const MaxZoom: real := 4.0

  /** The zoom buttons step by half a unit. */
  const ZoomStep: real := 0.5

  /** The viewer's own state: zoom factor, pan offset and an ongoing drag. */
  datatype Viewer = Viewer(zoom: real, position: Point, dragging: bool, dragStart: Point)

  function InitialViewer(): Viewer {
    Viewer(1.0, Origin, false, Origin)
  }

  /** The viewer is shown only with a truthy result image and an analysis; otherwise only restart is offered. */
  predicate ShowsViewer(s: TryOnSession) {
    IsTruthyText(s.resultImage) && s.analysis.Some?
  }

  /** The zoom stays within its bounds. */
  predicate ZoomInRange(v: Viewer) {
    MinZoom <= v.zoom <= MaxZoom
  }

  function Clamp(x: real, lo: real, hi: real): (r: real)
    requires lo <= hi
    ensures lo <= r <= hi
    ensures lo <= x <= hi ==> r == x
    ensures x < lo ==> r == lo
    ensures x > hi ==> r == hi
  {
    if x < lo then lo else if x > hi then hi else x
  }

  /**
   `adjustZoom`: the new zoom is the old one plus `delta`, clamped to
   [1, 4]; reaching 1 recentres the image, any other zoom keeps the pan.
   */
  function AdjustZoom(v: Viewer, delta: real): (r: Viewer)
    ensures ZoomInRange(r)
    ensures MinZoom <= v.zoom + delta <= MaxZoom ==> r.zoom == v.zoom + delta
    ensures v.zoom + delta <= MinZoom ==> r.zoom == MinZoom
    ensures v.zoom + delta >= MaxZoom ==> r.zoom == MaxZoom
    ensures r.zoom == 1.0 ==> r.position == Origin
    ensures r.zoom != 1.0 ==> r.position == v.position
    ensures r.dragging == v.dragging && r.dragStart == v.dragStart
  {
    var next := Clamp(v.zoom + delta, MinZoom, MaxZoom);
    if next == 1.0 then v.(zoom := next, position := Origin) else v.(zoom := next)
  }

  /** Zooming in one step and back out one step returns to the same viewer when no bound is hit. */
  lemma ZoomStepRoundTrip(v: Viewer)
    requires MinZoom < v.zoom && v.zoom + ZoomStep <= MaxZoom
    ensures AdjustZoom(AdjustZoom(v, ZoomStep), -ZoomStep) == v
  {
  }

  /** `handleMouseDown`: starts a drag only when zoomed in, remembering the cursor relative to the pan. */
  function MouseDown(v: Viewer, cursor: Point): (r: Viewer)
    ensures v.zoom <= 1.0 ==> r == v
    ensures v.zoom > 1.0 ==> r.dragging && r.zoom == v.zoom && r.position == v.position
    ensures v.zoom > 1.0 ==> r.dragStart == Point(cursor.x - v.position.x, cursor.y - v.position.y)
  {
    if v.zoom <= 1.0 then v
    else v.(dragging := true, dragStart := Point(cursor.x - v.position.x, cursor.y - v.position.y))
  }

  /** `handleMouseMove`: while dragging, the pan follows the cursor; otherwise nothing changes. */
  function MouseMove(v: Viewer, cursor: Point): (r: Viewer)
    ensures !v.dragging ==> r == v
    ensures v.dragging ==> r.position == Point(cursor.x - v.dragStart.x, cursor.y - v.dragStart.y)
    ensures r.zoom == v.zoom && r.dragging == v.dragging && r.dragStart == v.dragStart
  {
    if !v.dragging then v
    else v.(position := Point(cursor.x - v.dragStart.x, cursor.y - v.dragStart.y))
  }

  /** `handleMouseUp`, also on mouse leave: the drag ends, nothing else changes. */
  function MouseUp(v: Viewer): (r: Viewer)
    ensures !r.dragging
    ensures r.zoom == v.zoom && r.position == v.position && r.dragStart == v.dragStart
  {
    v.(dragging := false)
  }

  /**
   A press at `p0` followed by a move to `p1` pans the image by exactly the
   cursor's displacement; a press with no movement does not move it.
   */
  lemma DragPansByDisplacement(v: Viewer, p0: Point, p1: Point)
    requires v.zoom > 1.0
    ensures MouseMove(MouseDown(v, p0), p1).position
      == Point(v.position.x + (p1.x - p0.x), v.position.y + (p1.y - p0.y))
    ensures MouseMove(MouseDown(v, p0), p0).position == v.position
  {
  }

  /** At the minimum zoom nothing can be dragged. */
  lemma NoPanAtMinimumZoom(v: Viewer, p0: Point, p1: Point)
    requires v.zoom == MinZoom && !v.dragging
    ensures MouseMove(MouseDown(v, p0), p1) == v
  {
  }

  /** The prefix and extension of an exported file name. */
  const ExportPrefix: string := "viavo-tryon-result-"
  const ExportExtension: string := ".png"

  /**
   `handleExport`: no file without a result image; otherwise the name is the
   prefix, the timestamp in decimal, and ".png".
   */
  function ExportFileName(s: TryOnSession, timestamp: nat): (r: Option<string>)
    ensures r.Some? <==> IsTruthyText(s.resultImage)
    ensures r.Some? ==>
      exists digits :: r.value == ExportPrefix + digits + ExportExtension
        && AllDigits(digits) && |digits| > 0 && (|digits| == 1 || digits[0] != '0')
        && DecimalValue(digits) == timestamp
  {
    if !IsTruthyText(s.resultImage) then None
    else
      var digits := NatToDecimal(timestamp);
      Some(ExportPrefix + digits + ExportExtension)
  }

  /** "Modify Session": back to the products step with the session as it is. */
  function ModifySession(st: AppState): (r: AppState)
    ensures r.session == st.session && r.currentStep == Products
  {
    SetStep(st, Products)
  }
}
