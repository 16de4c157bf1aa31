/** The desktop shell: the single-slot drag gesture machine, the window
    layout it updates, the window stack and open set, the icon context menu
    and the two font-size steppers. A pointer-down records what is being
    dragged, a pointer-move dispatches on that record, a pointer-up clears
    it. DOM measurements arrive as a `Dom` value with each event. */
module Shell {
  import opened Base
  import opened WindowStack
  import opened Viewport
  import opened Desktop
  import PinballLayout

  /** What the browser reports when an event arrives: the viewport size,
      the bounding rectangle of each mounted frame and the desktop element. */
  datatype Dom = Dom(innerWidth: int, innerHeight: int, mounted: map<Frame, Rect>, desktop: Option<DesktopBox>)

  /** `ref.current?.getBoundingClientRect()` of a frame. */
  function Measure(dom: Dom, f: Frame): Option<Rect> {
    if f in dom.mounted then Some(dom.mounted[f]) else None
  }

  /** Every frame with a title bar to drag; the paint window has none. */
  predicate Movable(f: Frame) {
    f != Window(Paint)
  }

  const MovableFrames: set<Frame> :=
    {Window(Properties), Window(Explorer), Window(Notepad), Window(Cmd), Window(Gemini),
     Window(Pinball), Window(Tetris), StatusChip}

  /** The windows whose size is state: the three resizable ones and pinball. */
  const SizedWindows: set<WindowId> := {Explorer, Notepad, Cmd, Pinball}

  lemma MovableFramesAreMovable()
    ensures forall f :: f in MovableFrames <==> Movable(f)
    ensures forall id :: Resizable(id) ==> id in SizedWindows
  {
    forall f | Movable(f) ensures f in MovableFrames {
      IsMovableFrame(f);
    }
  }

  lemma IsMovableFrame(f: Frame)
    requires Movable(f)
    ensures f in MovableFrames
  {
    if f.Window? {
      match f.id
      case Properties =>
      case Explorer =>
      case Notepad =>
      case Cmd =>
      case Gemini =>
      case Pinball =>
      case Tetris =>
    }
  }

  /** The clamp a frame is moved with: the popup rule for the properties
      window and the family rule for every other frame. */
  function ClampFrame(f: Frame, x: int, y: int, width: int, height: int, dom: Dom): Pos
    requires Movable(f)
  {
    if f == Window(Properties) then ClampPopupToViewport(x, y, dom.innerWidth, dom.innerHeight, Measure(dom, f))
    else ClampFrameToViewport(f, x, y, width, height, dom.innerWidth, dom.innerHeight, Measure(dom, f))
  }

  lemma ClampFrameIdempotent(f: Frame, x: int, y: int, width: int, height: int, dom: Dom)
    requires Movable(f)
    ensures var p := ClampFrame(f, x, y, width, height, dom); ClampFrame(f, p.x, p.y, width, height, dom) == p
  {
    if f == Window(Properties) {
      PopupClampIdempotent(x, y, dom.innerWidth, dom.innerHeight, Measure(dom, f));
    } else {
      FrameClampIdempotent(f, x, y, width, height, dom.innerWidth, dom.innerHeight, Measure(dom, f));
    }
  }

  /** The size clamp of a resizable window, taking its origin from the DOM. */
  function ClampSize(id: WindowId, s: Size, dom: Dom): Size
    requires Resizable(id)
  {
    ClampWindowSize(id, s.width, s.height, None, None, dom.innerWidth, dom.innerHeight, Measure(dom, Window(id)))
  }

  datatype DragTarget = MoveFrame(frame: Frame) | ResizeWindow(window: WindowId) | DragIcon

  /** `dragState.current`. A pointer-down writes a whole new record; the
      fields it leaves undefined are 0 here, and no branch reads them. */
  datatype DragState = DragState(target: Option<DragTarget>, id: Option<string>,
                                 offsetX: int, offsetY: int,
                                 startX: int, startY: int, startWidth: int, startHeight: int)

  const Idle: DragState := DragState(None, None, 0, 0, 0, 0, 0, 0)

  /** A drag names only frames that can move and windows that can resize. */
  predicate WellTargeted(d: DragState) {
    match d.target
    case Some(MoveFrame(f)) => Movable(f)
    case Some(ResizeWindow(id)) => Resizable(id)
    case _ => true
  }

  /** The title-bar pointer-down handlers: only the primary button starts a
      drag, a press on a title-bar button does not (the properties popup
      has no such check), and an unmounted frame cannot be grabbed. The
      recorded offset is the pointer's distance from the frame's corner. */
  function HeaderDown(d: DragState, f: Frame, button: int, onButton: bool, clientX: int, clientY: int, dom: Dom): (r: DragState)
    requires Movable(f)
    ensures button != 0 || (onButton && f != Window(Properties)) || Measure(dom, f).None? ==> r == d
    ensures button == 0 && !(onButton && f != Window(Properties)) && Measure(dom, f).Some? ==>
      && r.target == Some(MoveFrame(f)) && r.id.None?
      && Measure(dom, f).value.left + r.offsetX == clientX
      && Measure(dom, f).value.top + r.offsetY == clientY
    ensures WellTargeted(d) ==> WellTargeted(r)
  {
    if button != 0 then d
    else if onButton && f != Window(Properties) then d
    else match Measure(dom, f)
      case None => d
      case Some(rect) => DragState(Some(MoveFrame(f)), None, clientX - rect.left, clientY - rect.top, 0, 0, 0, 0)
  }

  /** The resize-handle pointer-down handlers: the primary button records the
      pointer and the window's current size. */
  function ResizeDown(d: DragState, id: WindowId, button: int, clientX: int, clientY: int, current: Size): (r: DragState)
    requires Resizable(id)
    ensures button != 0 ==> r == d
    ensures button == 0 ==>
      && r.target == Some(ResizeWindow(id)) && r.id.None?
      && r.startX == clientX && r.startY == clientY
      && r.startWidth == current.width && r.startHeight == current.height
    ensures WellTargeted(d) ==> WellTargeted(r)
  {
    if button != 0 then d
    else DragState(Some(ResizeWindow(id)), None, 0, 0, clientX, clientY, current.width, current.height)
  }

  /** onIconPointerDown: the primary button on an icon that exists, with the
      desktop mounted, records the icon and the pointer's offset from the
      icon's corner in desktop coordinates. */
  function IconDown(d: DragState, icons: seq<Icon>, iconId: string, button: int, clientX: int, clientY: int,
                    desktop: Option<DesktopBox>): (r: DragState)
    ensures button != 0 || desktop.None? || FindIcon(icons, iconId).None? ==> r == d
    ensures button == 0 && desktop.Some? && FindIcon(icons, iconId).Some? ==>
      && r.target == Some(DragIcon) && r.id == Some(iconId)
      && desktop.value.left + FindIcon(icons, iconId).value.x + r.offsetX == clientX
      && desktop.value.top + FindIcon(icons, iconId).value.y + r.offsetY == clientY
    ensures WellTargeted(d) ==> WellTargeted(r)
  {
    if button != 0 || desktop.None? then d
    else match FindIcon(icons, iconId)
      case None => d
      case Some(icon) =>
        DragState(Some(DragIcon), Some(iconId),
                  clientX - desktop.value.left - icon.x, clientY - desktop.value.top - icon.y, 0, 0, 0, 0)
  }

  /** onPointerUp: target and id are cleared; the numbers stay. */
  function Released(d: DragState): (r: DragState)
    ensures r.target.None? && r.id.None?
    ensures r.offsetX == d.offsetX && r.offsetY == d.offsetY
    ensures r.startX == d.startX && r.startY == d.startY
    ensures r.startWidth == d.startWidth && r.startHeight == d.startHeight
  {
    d.(target := None, id := None)
  }

  /** The state a drag can change: frame positions, window sizes, icons. */
  datatype Layout = Layout(positions: map<Frame, Pos>, sizes: map<WindowId, Size>, icons: seq<Icon>)

  /** The desktop tracks the position of every movable frame and the size of
      every sized window. */
  predicate Tracked(l: Layout) {
    l.positions.Keys == MovableFrames && l.sizes.Keys == SizedWindows
  }

  /** onPointerMove. */
  function PointerMoved(l: Layout, d: DragState, clientX: int, clientY: int, dom: Dom): Layout
    requires WellTargeted(d)
  {
    match d.target
    case None => l
    case Some(MoveFrame(f)) =>
      l.(positions := l.positions[f := ClampFrame(f, clientX - d.offsetX, clientY - d.offsetY, 0, 0, dom)])
    case Some(ResizeWindow(id)) =>
      var wanted := Size(d.startWidth + (clientX - d.startX), d.startHeight + (clientY - d.startY));
      l.(sizes := l.sizes[id := ClampSize(id, wanted, dom)])
    case Some(DragIcon) =>
      if dom.desktop.None? || !Truthy(d.id) then l
      else
        var box := dom.desktop.value;
        var p := ClampIconToDesktop(clientX - box.left - d.offsetX, clientY - box.top - d.offsetY, dom.desktop);
        l.(icons := MoveIcon(l.icons, d.id.value, p))
  }

  /** A pointer-move changes only what the drag names: the dragged frame's
      position, the resized window's size or the dragged icon, and it keeps
      the set of tracked frames and windows. Without a target it changes
      nothing. */
  lemma PointerMoveTouchesOnlyTarget(l: Layout, d: DragState, clientX: int, clientY: int, dom: Dom)
    requires WellTargeted(d)
    ensures var r := PointerMoved(l, d, clientX, clientY, dom);
      && (d.target.None? ==> r == l)
      && (forall g :: g in l.positions && d.target != Some(MoveFrame(g)) ==>
            g in r.positions && r.positions[g] == l.positions[g])
      && (forall id :: id in l.sizes && d.target != Some(ResizeWindow(id)) ==>
            id in r.sizes && r.sizes[id] == l.sizes[id])
      && (d.target != Some(DragIcon) ==> r.icons == l.icons)
  {
  }

  lemma PointerMoveKeepsTracked(l: Layout, d: DragState, clientX: int, clientY: int, dom: Dom)
    requires WellTargeted(d) && Tracked(l)
    ensures Tracked(PointerMoved(l, d, clientX, clientY, dom))
  {
    match d.target
    case Some(MoveFrame(f)) => IsMovableFrame(f);
    case _ =>
  }

  /** A frame dropped anywhere rests where its own clamp leaves it. */
  lemma MovedFrameRests(l: Layout, d: DragState, clientX: int, clientY: int, dom: Dom)
    requires WellTargeted(d) && d.target.Some? && d.target.value.MoveFrame?
    ensures var f := d.target.value.frame; var r := PointerMoved(l, d, clientX, clientY, dom);
      f in r.positions && ClampFrame(f, r.positions[f].x, r.positions[f].y, 0, 0, dom) == r.positions[f]
  {
    var f := d.target.value.frame;
    ClampFrameIdempotent(f, clientX - d.offsetX, clientY - d.offsetY, 0, 0, dom);
  }

  /** Grabbing a mounted frame's title bar and moving the pointer by
      (dx, dy) puts the frame at its old corner plus (dx, dy), clamped: the
      frame does not jump under the pointer. */
  lemma DragFollowsPointer(l: Layout, d: DragState, f: Frame, clientX: int, clientY: int, dx: int, dy: int, dom: Dom)
    requires Movable(f) && Measure(dom, f).Some?
    ensures var grabbed := HeaderDown(d, f, 0, false, clientX, clientY, dom);
      var rect := Measure(dom, f).value;
      var r := PointerMoved(l, grabbed, clientX + dx, clientY + dy, dom);
      f in r.positions && r.positions[f] == ClampFrame(f, rect.left + dx, rect.top + dy, 0, 0, dom)
  {
    var grabbed := HeaderDown(d, f, 0, false, clientX, clientY, dom);
    var rect := Measure(dom, f).value;
    assert clientX + dx - grabbed.offsetX == rect.left + dx;
    assert clientY + dy - grabbed.offsetY == rect.top + dy;
  }

  /** Dragging a resize handle by (dx, dy) asks for the size at
      pointer-down plus (dx, dy), clamped. */
  lemma ResizeFollowsPointer(l: Layout, d: DragState, id: WindowId, clientX: int, clientY: int, dx: int, dy: int,
                             current: Size, dom: Dom)
    requires Resizable(id)
    ensures var grabbed := ResizeDown(d, id, 0, clientX, clientY, current);
      var r := PointerMoved(l, grabbed, clientX + dx, clientY + dy, dom);
      id in r.sizes && r.sizes[id] == ClampSize(id, Size(current.width + dx, current.height + dy), dom)
  {
  }

  /** Pressing on an icon and moving the pointer by (dx, dy) moves that icon
      by (dx, dy), clamped to the desktop, and leaves the other icons. */
  lemma IconDragFollowsPointer(l: Layout, d: DragState, iconId: string, clientX: int, clientY: int,
                               dx: int, dy: int, dom: Dom)
    requires dom.desktop.Some? && iconId != "" && FindIcon(l.icons, iconId).Some?
    ensures var grabbed := IconDown(d, l.icons, iconId, 0, clientX, clientY, dom.desktop);
      var icon := FindIcon(l.icons, iconId).value;
      var r := PointerMoved(l, grabbed, clientX + dx, clientY + dy, dom);
      r.icons == MoveIcon(l.icons, iconId, ClampIconToDesktop(icon.x + dx, icon.y + dy, dom.desktop))
  {
    var grabbed := IconDown(d, l.icons, iconId, 0, clientX, clientY, dom.desktop);
    var icon := FindIcon(l.icons, iconId).value;
    var box := dom.desktop.value;
    assert clientX + dx - box.left - grabbed.offsetX == icon.x + dx;
    assert clientY + dy - box.top - grabbed.offsetY == icon.y + dy;
  }

  /** After a pointer-up, pointer-moves change nothing until the next
      pointer-down. */
  lemma MoveAfterReleaseIsIdle(l: Layout, d: DragState, clientX: int, clientY: int, dom: Dom)
    ensures PointerMoved(l, Released(d), clientX, clientY, dom) == l
  {
  }

  /** onResize: each tracked frame is clamped to the new viewport where it
      stands, each resizable window's size is clamped, and the pinball window
      takes its responsive size, by which its position is then clamped. */
  function Resized(l: Layout, dom: Dom): Layout
  {
    var pinball := PinballLayout.CalculateResponsivePinballSize(dom.innerWidth, dom.innerHeight, TaskbarHeight);
    Layout(
      map f | f in l.positions ::
        if f == Window(Pinball) then ClampFrame(f, l.positions[f].x, l.positions[f].y, pinball.width, pinball.height, dom)
        else if Movable(f) then ClampFrame(f, l.positions[f].x, l.positions[f].y, 0, 0, dom)
        else l.positions[f],
      map id | id in l.sizes ::
        if id == Pinball then pinball
        else if Resizable(id) then ClampSize(id, l.sizes[id], dom)
        else l.sizes[id],
      l.icons)
  }

  /** A second resize event with the same measurements changes nothing:
      every frame and size already rests inside the viewport. */
  lemma ResizeIdempotent(l: Layout, dom: Dom)
    ensures Resized(Resized(l, dom), dom) == Resized(l, dom)
  {
    var once := Resized(l, dom);
    var twice := Resized(once, dom);
    var pinball := PinballLayout.CalculateResponsivePinballSize(dom.innerWidth, dom.innerHeight, TaskbarHeight);
    forall f | f in l.positions ensures twice.positions[f] == once.positions[f] {
      var p := l.positions[f];
      if f == Window(Pinball) {
        ClampFrameIdempotent(f, p.x, p.y, pinball.width, pinball.height, dom);
      } else if Movable(f) {
        ClampFrameIdempotent(f, p.x, p.y, 0, 0, dom);
      }
    }
    forall id | id in l.sizes ensures twice.sizes[id] == once.sizes[id] {
      if id != Pinball && Resizable(id) {
        var s := l.sizes[id];
        SizeClampIdempotent(id, s.width, s.height, None, None, dom.innerWidth, dom.innerHeight, Measure(dom, Window(id)));
      }
    }
    assert twice.positions == once.positions;
    assert twice.sizes == once.sizes;
  }

  /** A resize keeps the tracked frames, windows and icons. */
  lemma ResizeKeepsShape(l: Layout, dom: Dom)
    ensures Resized(l, dom).positions.Keys == l.positions.Keys
    ensures Resized(l, dom).sizes.Keys == l.sizes.Keys
    ensures Resized(l, dom).icons == l.icons
    ensures Tracked(l) ==> Tracked(Resized(l, dom))
  {
  }

  /** openPinball's placement: centred in the space above the taskbar
      (rounded down, and at least 12 from the top), then clamped with the
      pinball window's new size. */
  function PinballOpenPosition(innerWidth: int, innerHeight: int): (p: Pos)
    ensures var s := PinballLayout.CalculateResponsivePinballSize(innerWidth, innerHeight, TaskbarHeight);
      && Margin <= p.x <= Max(Margin, innerWidth - s.width - Margin)
      && Margin <= p.y <= Max(Margin, innerHeight - TaskbarHeight - s.height - Margin)
    ensures var s := PinballLayout.CalculateResponsivePinballSize(innerWidth, innerHeight, TaskbarHeight);
      var cx := (innerWidth - s.width) / 2;
      Margin <= cx <= innerWidth - s.width - Margin ==> p.x == cx && 2 * p.x <= innerWidth - s.width <= 2 * p.x + 1
    ensures var s := PinballLayout.CalculateResponsivePinballSize(innerWidth, innerHeight, TaskbarHeight);
      var cy := (innerHeight - TaskbarHeight - s.height) / 2;
      Margin <= cy <= innerHeight - TaskbarHeight - s.height - Margin ==> p.y == cy
  {
    var s := PinballLayout.CalculateResponsivePinballSize(innerWidth, innerHeight, TaskbarHeight);
    var centeredX := (innerWidth - s.width) / 2;
    var centeredY := Max(Margin, (innerHeight - TaskbarHeight - s.height) / 2);
    ClampPosition(centeredX, centeredY, s.width, s.height, innerWidth, innerHeight, TaskbarHeight, Margin)
  }

  /** changeReadmeFontSize: the notepad font stays within 10..28 and takes
      the requested size whenever that is in range. */
  function ReadmeFontSize(prev: int, delta: int): (r: int)
    ensures 10 <= r <= 28
    ensures 10 <= prev + delta <= 28 ==> r == prev + delta
    ensures prev + delta < 10 ==> r == 10
    ensures prev + delta > 28 ==> r == 28
  {
    Min(28, Max(10, prev + delta))
  }

  /** changeCmdFontSize: the console font stays within 11..26 likewise. */
  function CmdFontSize(prev: int, delta: int): (r: int)
    ensures 11 <= r <= 26
    ensures 11 <= prev + delta <= 26 ==> r == prev + delta
    ensures prev + delta < 11 ==> r == 11
    ensures prev + delta > 26 ==> r == 26
  {
    Min(26, Max(11, prev + delta))
  }

  /** Stepping a font size up and back down returns to it unless a bound
      was hit on the way. */
  lemma FontStepReversible(prev: int, delta: int)
    requires 10 <= prev <= 28 && 10 <= prev + delta <= 28
    ensures ReadmeFontSize(ReadmeFontSize(prev, delta), -delta) == prev
  {
  }

  /** The frame positions the desktop starts from; the status widget sits
      200 pixels left of the right edge until it is measured. */
  function InitialPositions(innerWidth: int): (m: map<Frame, Pos>)
    ensures m.Keys == MovableFrames
  {
    map[Window(Properties) := Pos(120, 120), Window(Explorer) := Pos(160, 78), Window(Notepad) := Pos(220, 110),
        Window(Cmd) := Pos(130, 84), Window(Gemini) := Pos(280, 138), Window(Pinball) := Pos(200, 86),
        Window(Tetris) := Pos(260, 96), StatusChip := Pos(Max(ChipMargin, innerWidth - 200), 10)]
  }

  function InitialSizes(innerWidth: int, innerHeight: int): (m: map<WindowId, Size>)
    ensures m.Keys == SizedWindows
  {
    map[Explorer := Size(640, 430), Notepad := Size(620, 440), Cmd := Size(920, 520),
        Pinball := PinballLayout.CalculateResponsivePinballSize(innerWidth, innerHeight, TaskbarHeight)]
  }

  /** The windows opened by a plain open handler (pinball has its own). */
  predicate PlainOpen(id: WindowId) {
    id == Explorer || id == Notepad || id == Cmd || id == Gemini || id == Tetris
  }

  /** openPinball's layout change: the responsive size and the centred
      position of the pinball window. */
  function PinballOpened(l: Layout, dom: Dom): (r: Layout)
    ensures Tracked(l) ==> Tracked(r)
  {
    var size := PinballLayout.CalculateResponsivePinballSize(dom.innerWidth, dom.innerHeight, TaskbarHeight);
    l.(positions := l.positions[Window(Pinball) := PinballOpenPosition(dom.innerWidth, dom.innerHeight)],
       sizes := l.sizes[Pinball := size])
  }

  /** Opening pinball moves and resizes only the pinball window, and the
      new size is the responsive one. */
  lemma PinballOpenTouchesOnlyPinball(l: Layout, dom: Dom)
    ensures var r := PinballOpened(l, dom);
      && r.icons == l.icons
      && (forall g :: g in l.positions && g != Window(Pinball) ==> g in r.positions && r.positions[g] == l.positions[g])
      && (forall id :: id in l.sizes && id != Pinball ==> id in r.sizes && r.sizes[id] == l.sizes[id])
      && r.sizes[Pinball] == PinballLayout.CalculateResponsivePinballSize(dom.innerWidth, dom.innerHeight, TaskbarHeight)
      && r.positions[Window(Pinball)] == PinballOpenPosition(dom.innerWidth, dom.innerHeight)
  {
  }

  /** The layout the desktop starts from. */
  function InitialLayout(innerWidth: int, innerHeight: int): (l: Layout)
    ensures Tracked(l)
  {
    Layout(InitialPositions(innerWidth), InitialSizes(innerWidth, innerHeight), PlacedInColumn(DefaultIconTable))
  }

  class DesktopShell {
    var drag: DragState
    var layout: Layout
    var stack: seq<WindowId>
    var open: set<WindowId>
    var menu: Menu
    var readmeFontSize: int
    var cmdFontSize: int

    ghost predicate Valid()
      reads this
    {
      && Tracked(layout)
      && WellTargeted(drag)
      && NoDuplicates(stack)
      && 10 <= readmeFontSize <= 28
      && 11 <= cmdFontSize <= 26
    }

    constructor(innerWidth: int, innerHeight: int)
      ensures Valid()
      ensures drag == Idle && menu == HiddenMenu && open == {} && stack == InitialStack
      ensures layout == InitialLayout(innerWidth, innerHeight)
      ensures readmeFontSize == 13 && cmdFontSize == 14
    {
      InitialStackHasNoDuplicates();
      drag := Idle;
      layout := InitialLayout(innerWidth, innerHeight);
      stack := InitialStack;
      open := {};
      menu := HiddenMenu;
      readmeFontSize := 13;
      cmdFontSize := 14;
    }

    method HeaderPointerDown(f: Frame, button: int, onButton: bool, clientX: int, clientY: int, dom: Dom)
      requires Valid() && Movable(f)
      modifies this`drag
      ensures Valid()
      ensures drag == HeaderDown(old(drag), f, button, onButton, clientX, clientY, dom)
    {
      if button != 0 {
        return;
      }
      if onButton && f != Window(Properties) {
        return;
      }
      var rect := Measure(dom, f);
      if rect.None? {
        return;
      }
      drag := DragState(Some(MoveFrame(f)), None, clientX - rect.value.left, clientY - rect.value.top, 0, 0, 0, 0);
    }

    method ResizePointerDown(id: WindowId, button: int, clientX: int, clientY: int)
      requires Valid() && Resizable(id)
      modifies this`drag
      ensures Valid()
      ensures id in layout.sizes && drag == ResizeDown(old(drag), id, button, clientX, clientY, layout.sizes[id])
    {
      MovableFramesAreMovable();
      if button != 0 {
        return;
      }
      var current := layout.sizes[id];
      drag := DragState(Some(ResizeWindow(id)), None, 0, 0, clientX, clientY, current.width, current.height);
    }

    method IconPointerDown(iconId: string, button: int, clientX: int, clientY: int, dom: Dom)
      requires Valid()
      modifies this`drag
      ensures Valid()
      ensures drag == IconDown(old(drag), layout.icons, iconId, button, clientX, clientY, dom.desktop)
    {
      if button != 0 || dom.desktop.None? {
        return;
      }
      var icon := FindIcon(layout.icons, iconId);
      if icon.None? {
        return;
      }
      var box := dom.desktop.value;
      drag := DragState(Some(DragIcon), Some(iconId),
                        clientX - box.left - icon.value.x, clientY - box.top - icon.value.y, 0, 0, 0, 0);
    }

    /** onPointerMove: dispatch on the recorded target. */
    method PointerMove(clientX: int, clientY: int, dom: Dom)
      requires Valid()
      modifies this`layout
      ensures Valid()
      ensures layout == PointerMoved(old(layout), drag, clientX, clientY, dom)
    {
      PointerMoveKeepsTracked(layout, drag, clientX, clientY, dom);
      layout := PointerMoved(layout, drag, clientX, clientY, dom);
    }

    method PointerUp()
      requires Valid()
      modifies this`drag
      ensures Valid()
      ensures drag == Released(old(drag))
    {
      drag := drag.(target := None, id := None);
    }

    method WindowResize(dom: Dom)
      requires Valid()
      modifies this`layout
      ensures Valid()
      ensures layout == Resized(old(layout), dom)
    {
      ResizeKeepsShape(layout, dom);
      layout := Resized(layout, dom);
    }

    /** bringWindowToFront, run by a press anywhere on a window and by its
      taskbar button. */
    method Focus(id: WindowId)
      requires Valid()
      modifies this`stack
      ensures Valid()
      ensures stack == BringToFront(old(stack), id)
    {
      BringToFrontKeepsOthers(stack, id);
      stack := BringToFront(stack, id);
    }

    method OpenWindow(id: WindowId)
      requires Valid() && PlainOpen(id)
      modifies this`stack, this`open
      ensures Valid()
      ensures stack == BringToFront(old(stack), id) && open == old(open) + {id}
      ensures TopOpenWindow(stack, open) == Some(id)
    {
      Focus(id);
      open := open + {id};
      FocusedOpenWindowIsTop(old(stack), open, id);
    }

    /** openPinball: recompute the responsive size, centre the window, focus
      and open it. */
    method OpenPinball(dom: Dom)
      requires Valid()
      modifies this`layout, this`stack, this`open
      ensures Valid()
      ensures layout == PinballOpened(old(layout), dom)
      ensures stack == BringToFront(old(stack), Pinball) && open == old(open) + {Pinball}
      ensures TopOpenWindow(stack, open) == Some(Pinball)
    {
      layout := PinballOpened(layout, dom);
      Focus(Pinball);
      open := open + {Pinball};
      FocusedOpenWindowIsTop(old(stack), open, Pinball);
    }

    /** onPropertiesClick as far as the desktop state goes: the menu hides,
      the popup is focused and shown while its request runs. */
    method ShowProperties()
      requires Valid()
      modifies this`menu, this`stack, this`open
      ensures Valid()
      ensures menu == old(menu).(visible := false)
      ensures stack == BringToFront(old(stack), Properties) && open == old(open) + {Properties}
    {
      menu := menu.(visible := false);
      Focus(Properties);
      open := open + {Properties};
    }

    method CloseWindow(id: WindowId)
      requires Valid()
      modifies this`open
      ensures Valid()
      ensures open == old(open) - {id}
    {
      open := open - {id};
    }

    method IconRightClick(iconId: string, clientX: int, clientY: int)
      requires Valid()
      modifies this`menu
      ensures Valid()
      ensures menu == Menu(true, clientX, clientY, Some(iconId))
    {
      menu := Menu(true, clientX, clientY, Some(iconId));
    }

    /** The window-wide click listener: the menu hides and forgets its target. */
    method DismissMenu()
      requires Valid()
      modifies this`menu
      ensures Valid()
      ensures menu == old(menu).(visible := false, targetId := None)
    {
      menu := menu.(visible := false, targetId := None);
    }

    /** onDeleteIconClick: without a target nothing happens; otherwise the
      targeted icon goes and the menu resets. */
    method DeleteTargetedIcon()
      requires Valid()
      modifies this`layout, this`menu
      ensures Valid()
      ensures !Truthy(old(menu).targetId) ==> layout == old(layout) && menu == old(menu)
      ensures Truthy(old(menu).targetId) ==>
        layout == old(layout).(icons := DeleteIcon(old(layout).icons, old(menu).targetId)) && menu == HiddenMenu
    {
      if !Truthy(menu.targetId) {
        return;
      }
      layout := layout.(icons := DeleteIcon(layout.icons, menu.targetId));
      menu := HiddenMenu;
    }

    /** The mount effect that lays the icons out in columns. */
    method ArrangeDesktopIcons(desktop: Option<DesktopBox>)
      requires Valid()
      modifies this`layout
      ensures Valid()
      ensures layout == old(layout).(icons := ArrangeIcons(old(layout).icons, desktop))
    {
      layout := layout.(icons := ArrangeIcons(layout.icons, desktop));
    }

    /** The mount effect that pins the status widget 6 pixels from the right
      edge, using its measured width or 170. */
    method PlaceStatusChip(dom: Dom)
      requires Valid()
      modifies this`layout
      ensures Valid()
      ensures layout == old(layout).(positions := old(layout).positions[StatusChip :=
        Pos(Max(ChipMargin, dom.innerWidth - OrElse(MeasuredWidth(Measure(dom, StatusChip)), 170) - ChipMargin), 10)])
    {
      var chipWidth := OrElse(MeasuredWidth(Measure(dom, StatusChip)), 170);
      layout := layout.(positions := layout.positions[StatusChip := Pos(Max(ChipMargin, dom.innerWidth - chipWidth - ChipMargin), 10)]);
    }

    method ChangeReadmeFontSize(delta: int)
      requires Valid()
      modifies this`readmeFontSize
      ensures Valid()
      ensures readmeFontSize == ReadmeFontSize(old(readmeFontSize), delta)
    {
      readmeFontSize := ReadmeFontSize(readmeFontSize, delta);
    }

    method ChangeCmdFontSize(delta: int)
      requires Valid()
      modifies this`cmdFontSize
      ensures Valid()
      ensures cmdFontSize == CmdFontSize(old(cmdFontSize), delta)
    {
      cmdFontSize := CmdFontSize(cmdFontSize, delta);
    }
  }
}
