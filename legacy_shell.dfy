/** The standalone desktop page, the earlier copy of the shell: the
    properties popup, the explorer and notepad windows (both resizable), four
    desktop icons and the notepad font stepper. It has no window stack. Its
    clamp rules, drag records and pointer dispatch are the shell's own, on a
    smaller set of frames. */
module LegacyShell {
  import opened Base
  import opened WindowStack
  import opened Viewport
  import opened Desktop
  import opened Shell

  const LegacyFrames: set<Frame> := {Window(Properties), Window(Explorer), Window(Notepad)}

  const LegacySized: set<WindowId> := {Explorer, Notepad}

  predicate LegacyTracked(l: Layout) {
    l.positions.Keys == LegacyFrames && l.sizes.Keys == LegacySized
  }

  /** The drags the page can start: its three title bars, its two resize
      handles and the icons. */
  predicate LegacyTargeted(d: DragState) {
    match d.target
    case Some(MoveFrame(f)) => f in LegacyFrames
    case Some(ResizeWindow(id)) => id in LegacySized
    case _ => true
  }

  lemma LegacyTargetedIsWellTargeted(d: DragState)
    requires LegacyTargeted(d)
    ensures WellTargeted(d)
  {
  }

  /** A pointer-move on the page keeps it tracking exactly its own frames. */
  lemma LegacyMoveKeepsTracked(l: Layout, d: DragState, clientX: int, clientY: int, dom: Dom)
    requires LegacyTargeted(d) && LegacyTracked(l)
    ensures LegacyTracked(PointerMoved(l, d, clientX, clientY, dom))
  {
  }

  /** The page's resize handler clamps the popup, the explorer and the
      notepad: exactly the shell's rule restricted to the frames it tracks. */
  lemma LegacyResizeClampsOwnFrames(l: Layout, dom: Dom)
    requires LegacyTracked(l)
    ensures Resized(l, dom).icons == l.icons
    ensures forall f :: f in LegacyFrames ==>
      Resized(l, dom).positions[f] == ClampFrame(f, l.positions[f].x, l.positions[f].y, 0, 0, dom)
    ensures forall id :: id in LegacySized ==>
      Resized(l, dom).sizes[id] == ClampSize(id, l.sizes[id], dom)
  {
    ResizeKeepsShape(l, dom);
  }

  lemma LegacyResizeKeepsTracked(l: Layout, dom: Dom)
    requires LegacyTracked(l)
    ensures LegacyTracked(Resized(l, dom))
  {
    ResizeKeepsShape(l, dom);
  }

  function LegacyInitialLayout(): (l: Layout)
    ensures LegacyTracked(l)
  {
    Layout(map[Window(Properties) := Pos(120, 120), Window(Explorer) := Pos(160, 78), Window(Notepad) := Pos(220, 110)],
           map[Explorer := Size(640, 430), Notepad := Size(620, 440)],
           PlacedInColumn(LegacyIconTable))
  }

  class LegacyDesktop {
    var drag: DragState
    var layout: Layout
    var open: set<WindowId>
    var menu: Menu
    var readmeFontSize: int

    ghost predicate Valid()
      reads this
    {
      && LegacyTracked(layout)
      && LegacyTargeted(drag)
      && open <= {Properties, Explorer, Notepad}
      && 10 <= readmeFontSize <= 28
    }

    constructor()
      ensures Valid()
      ensures drag == Idle && layout == LegacyInitialLayout() && open == {} && menu == HiddenMenu
      ensures readmeFontSize == 13
    {
      drag := Idle;
      layout := LegacyInitialLayout();
      open := {};
      menu := HiddenMenu;
      readmeFontSize := 13;
    }

    method HeaderPointerDown(f: Frame, button: int, onButton: bool, clientX: int, clientY: int, dom: Dom)
      requires Valid() && f in LegacyFrames
      modifies this`drag
      ensures Valid()
      ensures drag == HeaderDown(old(drag), f, button, onButton, clientX, clientY, dom)
    {
      drag := HeaderDown(drag, f, button, onButton, clientX, clientY, dom);
    }

    method ResizePointerDown(id: WindowId, button: int, clientX: int, clientY: int)
      requires Valid() && id in LegacySized
      modifies this`drag
      ensures Valid()
      ensures id in layout.sizes && drag == ResizeDown(old(drag), id, button, clientX, clientY, layout.sizes[id])
    {
      drag := ResizeDown(drag, id, button, clientX, clientY, layout.sizes[id]);
    }

    method IconPointerDown(iconId: string, button: int, clientX: int, clientY: int, dom: Dom)
      requires Valid()
      modifies this`drag
      ensures Valid()
      ensures drag == IconDown(old(drag), layout.icons, iconId, button, clientX, clientY, dom.desktop)
    {
      drag := IconDown(drag, layout.icons, iconId, button, clientX, clientY, dom.desktop);
    }

    method PointerMove(clientX: int, clientY: int, dom: Dom)
      requires Valid()
      modifies this`layout
      ensures Valid()
      ensures WellTargeted(drag) && layout == PointerMoved(old(layout), drag, clientX, clientY, dom)
    {
      LegacyTargetedIsWellTargeted(drag);
      LegacyMoveKeepsTracked(layout, drag, clientX, clientY, dom);
      layout := PointerMoved(layout, drag, clientX, clientY, dom);
    }

    method PointerUp()
      requires Valid()
      modifies this`drag
      ensures Valid()
      ensures drag == Released(old(drag))
    {
      drag := drag.(target := None, id := None);
    }

    method WindowResize(dom: Dom)
      requires Valid()
      modifies this`layout
      ensures Valid()
      ensures layout == Resized(old(layout), dom)
    {
      LegacyResizeKeepsTracked(layout, dom);
      layout := Resized(layout, dom);
    }

    /** openExplorer and openReadme: the window shows; nothing is restacked. */
    method OpenWindow(id: WindowId)
      requires Valid() && (id == Explorer || id == Notepad)
      modifies this`open
      ensures Valid()
      ensures open == old(open) + {id}
    {
      open := open + {id};
    }

    method ShowProperties()
      requires Valid()
      modifies this`menu, this`open
      ensures Valid()
      ensures menu == old(menu).(visible := false) && open == old(open) + {Properties}
    {
      menu := menu.(visible := false);
      open := open + {Properties};
    }

    method CloseWindow(id: WindowId)
      requires Valid()
      modifies this`open
      ensures Valid()
      ensures open == old(open) - {id}
    {
      open := open - {id};
    }

    method IconRightClick(iconId: string, clientX: int, clientY: int)
      requires Valid()
      modifies this`menu
      ensures Valid()
      ensures menu == Menu(true, clientX, clientY, Some(iconId))
    {
      menu := Menu(true, clientX, clientY, Some(iconId));
    }

    method DismissMenu()
      requires Valid()
      modifies this`menu
      ensures Valid()
      ensures menu == old(menu).(visible := false, targetId := None)
    {
      menu := menu.(visible := false, targetId := None);
    }

    method DeleteTargetedIcon()
      requires Valid()
      modifies this`layout, this`menu
      ensures Valid()
      ensures !Truthy(old(menu).targetId) ==> layout == old(layout) && menu == old(menu)
      ensures Truthy(old(menu).targetId) ==>
        layout == old(layout).(icons := DeleteIcon(old(layout).icons, old(menu).targetId)) && menu == HiddenMenu
    {
      if !Truthy(menu.targetId) {
        return;
      }
      layout := layout.(icons := DeleteIcon(layout.icons, menu.targetId));
      menu := HiddenMenu;
    }

    method ArrangeDesktopIcons(desktop: Option<DesktopBox>)
      requires Valid()
      modifies this`layout
      ensures Valid()
      ensures layout == old(layout).(icons := ArrangeIcons(old(layout).icons, desktop))
    {
      layout := layout.(icons := ArrangeIcons(layout.icons, desktop));
    }

    method ChangeReadmeFontSize(delta: int)
      requires Valid()
      modifies this`readmeFontSize
      ensures Valid()
      ensures readmeFontSize == ReadmeFontSize(old(readmeFontSize), delta)
    {
      readmeFontSize := ReadmeFontSize(readmeFontSize, delta);
    }
  }
}
