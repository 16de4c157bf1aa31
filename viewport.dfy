/** The viewport clamp utilities: pure rules that keep a window's position
    and size inside the visible viewport, minus the taskbar strip and a
    margin. One rule per window, written as a lookup table keyed by the
    dragged element. */
module Viewport {
  import opened Base
  import opened WindowStack

  /** The margin every window keeps from the viewport edges. */
  const Margin: int := 12

  /** The margin of the floating status widget. */
  const ChipMargin: int := 6

  /** An element that can be dragged around the viewport: a window, or the
      floating Gemini status widget. */
  datatype Frame = Window(id: WindowId) | StatusChip

  /** What the DOM reports of one mounted element: the origin of its bounding
      rectangle and its offset size. */
  datatype Rect = Rect(left: int, top: int, width: int, height: int)

  /** The position rule shared by all windows: x in
      [margin, max(margin, W - w - margin)], y in
      [margin, max(margin, H - reserved - h - margin)]. */
  function ClampPosition(x: int, y: int, width: int, height: int, innerWidth: int, innerHeight: int,
                         reserved: int, margin: int): (r: Pos)
    ensures margin <= r.x <= Max(margin, innerWidth - width - margin)
    ensures margin <= r.y <= Max(margin, innerHeight - reserved - height - margin)
    ensures margin <= x <= innerWidth - width - margin ==> r.x == x
    ensures margin <= y <= innerHeight - reserved - height - margin ==> r.y == y
  {
    Pos(ClampAxis(x, margin, innerWidth - width - margin),
        ClampAxis(y, margin, innerHeight - reserved - height - margin))
  }

  lemma ClampPositionIdempotent(x: int, y: int, width: int, height: int, innerWidth: int, innerHeight: int,
                                reserved: int, margin: int)
    ensures var r := ClampPosition(x, y, width, height, innerWidth, innerHeight, reserved, margin);
      ClampPosition(r.x, r.y, width, height, innerWidth, innerHeight, reserved, margin) == r
  {
  }

  /** clampToViewport of the properties popup: unchanged while the popup is
      not mounted; otherwise clamped to its measured size with a margin of
      12 and no taskbar strip reserved. */
  function ClampPopupToViewport(x: int, y: int, innerWidth: int, innerHeight: int, popup: Option<Rect>): (r: Pos)
    ensures popup.None? ==> r == Pos(x, y)
    ensures popup.Some? ==>
      && Margin <= r.x <= Max(Margin, innerWidth - popup.value.width - Margin)
      && Margin <= r.y <= Max(Margin, innerHeight - popup.value.height - Margin)
    ensures popup.Some? && Margin <= x <= innerWidth - popup.value.width - Margin ==> r.x == x
    ensures popup.Some? && Margin <= y <= innerHeight - popup.value.height - Margin ==> r.y == y
  {
    match popup
    case None => Pos(x, y)
    case Some(p) => ClampPosition(x, y, p.width, p.height, innerWidth, innerHeight, 0, Margin)
  }

  lemma PopupClampIdempotent(x: int, y: int, innerWidth: int, innerHeight: int, popup: Option<Rect>)
    ensures var r := ClampPopupToViewport(x, y, innerWidth, innerHeight, popup);
      ClampPopupToViewport(r.x, r.y, innerWidth, innerHeight, popup) == r
  {
  }

  /** The frames clamped by the `clamp*ToViewport` family (the popup has its
      own rule and the paint window has none). */
  predicate InFamily(f: Frame) {
    f != Window(Properties) && f != Window(Paint)
  }

  function FamilyMargin(f: Frame): int {
    if f == StatusChip then ChipMargin else Margin
  }

  /** The footprint a family rule assumes when neither an explicit size nor
      a measurement is available. */
  function FallbackExtent(f: Frame): Size
    requires InFamily(f)
  {
    match f
    case StatusChip => Size(170, 32)
    case Window(Explorer) => Size(640, 430)
    case Window(Notepad) => Size(620, 440)
    case Window(Cmd) => Size(940, 520)
    case Window(Gemini) => Size(540, 240)
    case Window(Pinball) => Size(610, 500)
    case Window(Tetris) => Size(360, 520)
  }

  function MeasuredWidth(measured: Option<Rect>): int {
    if measured.Some? then measured.value.width else 0
  }

  function MeasuredHeight(measured: Option<Rect>): int {
    if measured.Some? then measured.value.height else 0
  }

  /** `width || ref.current?.offsetWidth || fallback`, and the same for the
      height: an explicit non-zero size wins, then a non-zero measurement,
      then the fallback. */
  function Footprint(f: Frame, width: int, height: int, measured: Option<Rect>): (e: Size)
    requires InFamily(f)
    ensures width != 0 ==> e.width == width
    ensures width == 0 && MeasuredWidth(measured) != 0 ==> e.width == MeasuredWidth(measured)
    ensures width == 0 && MeasuredWidth(measured) == 0 ==> e.width == FallbackExtent(f).width
    ensures height != 0 ==> e.height == height
    ensures height == 0 && MeasuredHeight(measured) != 0 ==> e.height == MeasuredHeight(measured)
    ensures height == 0 && MeasuredHeight(measured) == 0 ==> e.height == FallbackExtent(f).height
  {
    Size(OrElse(width, OrElse(MeasuredWidth(measured), FallbackExtent(f).width)),
         OrElse(height, OrElse(MeasuredHeight(measured), FallbackExtent(f).height)))
  }

  /** clampExplorerToViewport, clampNotepadToViewport, clampCmdToViewport,
      clampGeminiToViewport, clampPinballToViewport, clampTetrisToViewport
      and clampDesktopGeminiToViewport. */
  function ClampFrameToViewport(f: Frame, x: int, y: int, width: int, height: int,
                                innerWidth: int, innerHeight: int, measured: Option<Rect>): (r: Pos)
    requires InFamily(f)
    ensures var m := FamilyMargin(f); var e := Footprint(f, width, height, measured);
      && m <= r.x <= Max(m, innerWidth - e.width - m)
      && m <= r.y <= Max(m, innerHeight - TaskbarHeight - e.height - m)
    ensures var m := FamilyMargin(f); var e := Footprint(f, width, height, measured);
      m <= x <= innerWidth - e.width - m ==> r.x == x
    ensures var m := FamilyMargin(f); var e := Footprint(f, width, height, measured);
      m <= y <= innerHeight - TaskbarHeight - e.height - m ==> r.y == y
  {
    var e := Footprint(f, width, height, measured);
    ClampPosition(x, y, e.width, e.height, innerWidth, innerHeight, TaskbarHeight, FamilyMargin(f))
  }

  lemma FrameClampIdempotent(f: Frame, x: int, y: int, width: int, height: int,
                             innerWidth: int, innerHeight: int, measured: Option<Rect>)
    requires InFamily(f)
    ensures var r := ClampFrameToViewport(f, x, y, width, height, innerWidth, innerHeight, measured);
      ClampFrameToViewport(f, r.x, r.y, width, height, innerWidth, innerHeight, measured) == r
  {
  }

  /** A window dragged past the right edge of a viewport wide enough for it
      lands exactly a margin away from that edge. */
  lemma DragPastRightEdge(f: Frame, x: int, y: int, innerWidth: int, innerHeight: int, measured: Option<Rect>)
    requires InFamily(f) && f != StatusChip
    requires var e := Footprint(f, 0, 0, measured); Margin <= innerWidth - e.width - Margin < x
    ensures ClampFrameToViewport(f, x, y, 0, 0, innerWidth, innerHeight, measured).x
         == innerWidth - Footprint(f, 0, 0, measured).width - Margin
  {
  }

  /** The windows with a resize handle. */
  predicate Resizable(id: WindowId) {
    id == Explorer || id == Notepad || id == Cmd
  }

  /** The minimum size of a resizable window and the origin it assumes when
      neither an explicit origin nor a measurement is available. */
  datatype SizeRule = SizeRule(minWidth: int, minHeight: int, defaultLeft: int, defaultTop: int)

  function SizeRuleFor(id: WindowId): SizeRule
    requires Resizable(id)
  {
    match id
    case Explorer => SizeRule(420, 280, 160, 78)
    case Notepad => SizeRule(420, 260, 220, 110)
    case Cmd => SizeRule(520, 300, 130, 84)
  }

  /** `x ?? rect?.left ?? defaultLeft`, and the same for the top. */
  function SizeOrigin(id: WindowId, x: Option<int>, y: Option<int>, measured: Option<Rect>): (o: Pos)
    requires Resizable(id)
    ensures x.Some? ==> o.x == x.value
    ensures x.None? && measured.Some? ==> o.x == measured.value.left
    ensures x.None? && measured.None? ==> o.x == SizeRuleFor(id).defaultLeft
    ensures y.Some? ==> o.y == y.value
    ensures y.None? && measured.Some? ==> o.y == measured.value.top
    ensures y.None? && measured.None? ==> o.y == SizeRuleFor(id).defaultTop
  {
    var rule := SizeRuleFor(id);
    Pos(Coalesce(x, if measured.Some? then measured.value.left else rule.defaultLeft),
        Coalesce(y, if measured.Some? then measured.value.top else rule.defaultTop))
  }

  /** clampExplorerSizeToViewport, clampNotepadSizeToViewport and
      clampCmdSizeToViewport: width in [minW, max(minW, W - left - 12)],
      height in [minH, max(minH, H - 40 - top - 12)]. */
  function ClampWindowSize(id: WindowId, width: int, height: int, x: Option<int>, y: Option<int>,
                           innerWidth: int, innerHeight: int, measured: Option<Rect>): (r: Size)
    requires Resizable(id)
    ensures var rule := SizeRuleFor(id); var o := SizeOrigin(id, x, y, measured);
      && rule.minWidth <= r.width <= Max(rule.minWidth, innerWidth - o.x - Margin)
      && rule.minHeight <= r.height <= Max(rule.minHeight, innerHeight - TaskbarHeight - o.y - Margin)
    ensures var rule := SizeRuleFor(id); var o := SizeOrigin(id, x, y, measured);
      rule.minWidth <= width <= innerWidth - o.x - Margin ==> r.width == width
    ensures var rule := SizeRuleFor(id); var o := SizeOrigin(id, x, y, measured);
      rule.minHeight <= height <= innerHeight - TaskbarHeight - o.y - Margin ==> r.height == height
    ensures id == Explorer ==> r.width >= 420 && r.height >= 280
    ensures id == Notepad ==> r.width >= 420 && r.height >= 260
    ensures id == Cmd ==> r.width >= 520 && r.height >= 300
  {
    var rule := SizeRuleFor(id);
    var o := SizeOrigin(id, x, y, measured);
    Size(ClampAxis(width, rule.minWidth, innerWidth - o.x - Margin),
         ClampAxis(height, rule.minHeight, innerHeight - TaskbarHeight - o.y - Margin))
  }

  lemma SizeClampIdempotent(id: WindowId, width: int, height: int, x: Option<int>, y: Option<int>,
                            innerWidth: int, innerHeight: int, measured: Option<Rect>)
    requires Resizable(id)
    ensures var r := ClampWindowSize(id, width, height, x, y, innerWidth, innerHeight, measured);
      ClampWindowSize(id, r.width, r.height, x, y, innerWidth, innerHeight, measured) == r
  {
  }
}
