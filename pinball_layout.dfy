/** calculateResponsivePinballSize: the pinball window size that keeps the
    620:420 canvas aspect ratio while fitting the viewport above the
    taskbar. All values are whole pixels; `viewportWidth * 0.56` is taken as
    floor(viewportWidth * 56 / 100). Dafny's division by a positive divisor
    rounds toward minus infinity, as `Math.floor` does. */
module PinballLayout {
  import opened Base

  const ViewportMargin: int := 24
  const MinWindowWidth: int := 420
  const MinWindowHeight: int := 320
  const CanvasAspectWidth: int := 620
  const CanvasAspectHeight: int := 420
  const HorizontalChrome: int := 16
  const VerticalChrome: int := 100
  const MinCanvasWidth: int := 200

  function MaxWindowWidth(viewportWidth: int): int {
    Max(320, viewportWidth - ViewportMargin)
  }

  function MaxWindowHeight(viewportHeight: int, taskbarHeight: int): int {
    Max(300, viewportHeight - taskbarHeight - ViewportMargin)
  }

  /** floor(viewportWidth * 0.56), the width the window prefers. */
  function IdealWindowWidth(viewportWidth: int): (w: int)
    ensures 100 * w <= 56 * viewportWidth < 100 * (w + 1)
  {
    (viewportWidth * 56) / 100
  }

  /** The widest canvas whose height still fits the tallest window. */
  function MaxCanvasWidthFromHeight(maxWindowHeight: int): (w: int)
    ensures w >= MinCanvasWidth
    ensures w > MinCanvasWidth ==>
      CanvasAspectHeight * w <= (maxWindowHeight - VerticalChrome) * CanvasAspectWidth
  {
    Max(MinCanvasWidth, ((maxWindowHeight - VerticalChrome) * CanvasAspectWidth) / CanvasAspectHeight)
  }

  /** The canvas width inside a window of the given width. */
  function CanvasWidth(windowWidth: int): (c: int)
    ensures c >= MinCanvasWidth
    ensures c >= windowWidth - HorizontalChrome
    ensures windowWidth - HorizontalChrome >= MinCanvasWidth ==> c == windowWidth - HorizontalChrome
  {
    Max(MinCanvasWidth, windowWidth - HorizontalChrome)
  }

  /** The canvas height that keeps the 620:420 aspect ratio, rounded down. */
  function CanvasHeight(canvasWidth: int): (h: int)
    ensures CanvasAspectWidth * h <= canvasWidth * CanvasAspectHeight < CanvasAspectWidth * (h + 1)
  {
    (canvasWidth * CanvasAspectHeight) / CanvasAspectWidth
  }

  function WindowWidth(viewportWidth: int, viewportHeight: int, taskbarHeight: int): int {
    var maxW := MaxWindowWidth(viewportWidth);
    var maxH := MaxWindowHeight(viewportHeight, taskbarHeight);
    var clampedMinWidth := Min(MinWindowWidth, maxW);
    var fitted := Min(Min(maxW, MaxCanvasWidthFromHeight(maxH) + HorizontalChrome), IdealWindowWidth(viewportWidth));
    Min(maxW, Max(clampedMinWidth, fitted))
  }

  /** The window size for a viewport of the given size: never wider than the
      viewport less 24 pixels (but at least 320), never narrower than 420
      unless that limit is, never wider than the preferred 56% of the viewport
      unless the minimum forces it, and likewise for the height with the
      taskbar reserved. When the window is tall enough, it holds the whole
      canvas and its chrome. */
  function CalculateResponsivePinballSize(viewportWidth: int, viewportHeight: int, taskbarHeight: int): (r: Size)
    ensures r.width <= MaxWindowWidth(viewportWidth)
    ensures r.width >= Min(MinWindowWidth, MaxWindowWidth(viewportWidth))
    ensures r.width <= Max(Min(MinWindowWidth, MaxWindowWidth(viewportWidth)), IdealWindowWidth(viewportWidth))
    ensures r.height <= MaxWindowHeight(viewportHeight, taskbarHeight)
    ensures r.height >= Min(MinWindowHeight, MaxWindowHeight(viewportHeight, taskbarHeight))
    ensures var canvasHeight := CanvasHeight(CanvasWidth(r.width));
      canvasHeight + VerticalChrome <= MaxWindowHeight(viewportHeight, taskbarHeight) ==>
      r.height >= canvasHeight + VerticalChrome
  {
    var maxH := MaxWindowHeight(viewportHeight, taskbarHeight);
    var windowWidth := WindowWidth(viewportWidth, viewportHeight, taskbarHeight);
    var canvasHeight := CanvasHeight(CanvasWidth(windowWidth));
    Size(windowWidth, Min(maxH, Max(Min(MinWindowHeight, maxH), canvasHeight + VerticalChrome)))
  }
}
