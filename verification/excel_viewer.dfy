/** The embedded workbook viewer's zoom: a level that starts at `initialZoom`, and two
    buttons that step it by `zoomStep`, capped at `maxZoom` and floored at `minZoom`, each
    disabled once its bound is reached. */
module ExcelViewer {
  import Zoom

  /** Zoom-in is disabled at or above the maximum. */
  predicate ZoomInDisabled(zoom: real, maxZoom: real)
  {
    zoom >= maxZoom
  }

  /** Zoom-out is disabled at or below the minimum. */
  predicate ZoomOutDisabled(zoom: real, minZoom: real)
  {
    zoom <= minZoom
  }

  /** With a positive step, a button is disabled exactly when pressing it would leave the
      level unchanged, and an enabled press keeps the level within the bounds. */
  lemma ButtonsMatchEffect(zoom: real, minZoom: real, maxZoom: real, zoomStep: real)
    requires minZoom <= zoom <= maxZoom && zoomStep > 0.0
    ensures ZoomInDisabled(zoom, maxZoom) <==> Zoom.ZoomIn(zoom, zoomStep, maxZoom) == zoom
    ensures ZoomOutDisabled(zoom, minZoom) <==> Zoom.ZoomOut(zoom, zoomStep, minZoom) == zoom
    ensures minZoom <= Zoom.ZoomIn(zoom, zoomStep, maxZoom) <= maxZoom
    ensures minZoom <= Zoom.ZoomOut(zoom, zoomStep, minZoom) <= maxZoom
  {
    Zoom.DisabledIffNoEffect(zoom, zoomStep, minZoom, maxZoom);
    Zoom.StepsKeepRange(zoom, zoomStep, minZoom, maxZoom);
  }

  /** With the defaults, ten presses of zoom-in take 100% to 200%, where the button turns
      disabled; nine presses of zoom-out take 100% to 10%. */
  lemma DefaultClicks()
    ensures Zoom.ZoomInTimes(1.0, 0.1, 2.0, 10) == 2.0 && ZoomInDisabled(2.0, 2.0)
    ensures Zoom.ZoomInTimes(1.0, 0.1, 2.0, 9) == 1.9 && !ZoomInDisabled(1.9, 2.0)
    ensures Zoom.ZoomOutTimes(1.0, 0.1, 0.1, 9) == 0.1 && ZoomOutDisabled(0.1, 0.1)
  {
    Zoom.ZoomInTimesSaturates(1.0, 0.1, 2.0, 10);
    Zoom.ZoomInTimesSaturates(1.0, 0.1, 2.0, 9);
    Zoom.ZoomOutTimesSaturates(1.0, 0.1, 0.1, 9);
  }

  class ExcelViewer {
    const minZoom: real
    const maxZoom: real
    const zoomStep: real
    var zoom: real

    predicate InRange()
      reads this
    {
      minZoom <= zoom <= maxZoom
    }

    constructor (initialZoom: real := 1.0, minZoom: real := 0.1, maxZoom: real := 2.0, zoomStep: real := 0.1)
      ensures zoom == initialZoom && this.minZoom == minZoom && this.maxZoom == maxZoom && this.zoomStep == zoomStep
    {
      zoom := initialZoom;
      this.minZoom := minZoom;
      this.maxZoom := maxZoom;
      this.zoomStep := zoomStep;
    }

    /** `handleZoomIn`, reachable only while its button is enabled. */
    method HandleZoomIn()
      requires !ZoomInDisabled(zoom, maxZoom)
      modifies this
      ensures zoom == Zoom.ZoomIn(old(zoom), zoomStep, maxZoom)
      ensures zoom <= maxZoom
      ensures old(InRange()) && zoomStep >= 0.0 ==> InRange()
    {
      zoom := Zoom.Min(zoom + zoomStep, maxZoom);
    }

    /** `handleZoomOut`, reachable only while its button is enabled. */
    method HandleZoomOut()
      requires !ZoomOutDisabled(zoom, minZoom)
      modifies this
      ensures zoom == Zoom.ZoomOut(old(zoom), zoomStep, minZoom)
      ensures zoom >= minZoom
      ensures old(InRange()) && zoomStep >= 0.0 ==> InRange()
    {
      zoom := Zoom.Max(zoom - zoomStep, minZoom);
    }
  }
}
