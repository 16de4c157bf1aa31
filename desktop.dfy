/** Desktop icons: the column-major auto-arrangement, the clamp that keeps a
    dragged icon on the desktop, moving one icon and deleting one. */
module Desktop {
  import opened Base

  datatype Icon = Icon(id: string, caption: string, kind: string, x: int, y: int)

  /** What the DOM reports of the desktop element: its bounding-rect origin
      and its client size. */
  datatype DesktopBox = DesktopBox(left: int, top: int, clientWidth: int, clientHeight: int)

  /** Icons placed in one column at x = 28, 110 pixels apart from y = 36,
      as the desktop seeds them before the first arrangement. */
  function PlacedInColumn(base: seq<Icon>): (r: seq<Icon>)
    ensures |r| == |base|
    ensures forall i :: 0 <= i < |r| ==>
      r[i] == Icon(base[i].id, base[i].caption, base[i].kind, 28, 36 + i * (IconHeight + IconGap))
  {
    seq(|base|, i requires 0 <= i < |base| => base[i].(x := 28, y := 36 + i * 110))
  }

  /** DEFAULT_ICONS of the desktop: id, label and type of each shortcut. */
  const DefaultIconTable: seq<Icon> := [
    Icon("computer", "My Computer", "computer", 0, 0),
    Icon("recycle", "Recycle Bin", "recycle-shortcut", 0, 0),
    Icon("cmd", "Command Prompt", "cmd-shortcut", 0, 0),
    Icon("readme", "readme.txt", "text-file", 0, 0),
    Icon("gemini", "Gemini API Key", "gemini-shortcut", 0, 0),
    Icon("pinball", "3D Pinball", "pinball-app", 0, 0),
    Icon("tetris", "Tetris", "tetris-app", 0, 0)]

  /** The standalone desktop's shorter DEFAULT_ICONS: its first four entries. */
  const LegacyIconTable: seq<Icon> := DefaultIconTable[..4]

  /** The desktop height available to icons, never below one icon. */
  function AvailableHeight(clientHeight: int): (h: int)
    ensures h >= IconHeight
  {
    Max(IconHeight, clientHeight - TaskbarHeight - DesktopPadding * 2)
  }

  /** The number of icon rows: at least one, and as many as fit. */
  function IconRows(clientHeight: int): (rows: int)
    ensures rows >= 1
    ensures (rows - 1) * (IconHeight + IconGap) + IconHeight <= AvailableHeight(clientHeight)
    ensures rows * (IconHeight + IconGap) + IconHeight > AvailableHeight(clientHeight)
  {
    Max(1, (AvailableHeight(clientHeight) + IconGap) / (IconHeight + IconGap))
  }

  function SlotX(index: int, rows: int): int
    requires rows >= 1
  {
    DesktopPadding + (index / rows) * (IconWidth + IconGap)
  }

  function SlotY(index: int, rows: int): int
    requires rows >= 1
  {
    DesktopPadding + (index % rows) * (IconHeight + IconGap)
  }

  /** arrangeIcons: icon i goes to column floor(i / rows) and row
      i mod rows; without a mounted desktop the icons are left alone. */
  function ArrangeIcons(icons: seq<Icon>, desktop: Option<DesktopBox>): (r: seq<Icon>)
    ensures |r| == |icons|
    ensures desktop.None? ==> r == icons
    ensures forall i :: 0 <= i < |r| ==>
      r[i].id == icons[i].id && r[i].caption == icons[i].caption && r[i].kind == icons[i].kind
    ensures desktop.Some? ==> forall i :: 0 <= i < |r| ==>
      r[i].x == SlotX(i, IconRows(desktop.value.clientHeight)) &&
      r[i].y == SlotY(i, IconRows(desktop.value.clientHeight))
  {
    match desktop
    case None => icons
    case Some(d) =>
      var rows := IconRows(d.clientHeight);
      seq(|icons|, i requires 0 <= i < |icons| => icons[i].(x := SlotX(i, rows), y := SlotY(i, rows)))
  }

  /** Every arranged icon ends above the taskbar: y + ICON_HEIGHT stays
      within the padding plus the available height. */
  lemma ArrangedIconsFitVertically(icons: seq<Icon>, d: DesktopBox)
    ensures forall i :: 0 <= i < |icons| ==>
      DesktopPadding <= ArrangeIcons(icons, Some(d))[i].y &&
      ArrangeIcons(icons, Some(d))[i].y + IconHeight <= DesktopPadding + AvailableHeight(d.clientHeight)
  {
    var rows := IconRows(d.clientHeight);
    forall i | 0 <= i < |icons|
      ensures DesktopPadding <= SlotY(i, rows)
      ensures SlotY(i, rows) + IconHeight <= DesktopPadding + AvailableHeight(d.clientHeight)
    {
      var row := i % rows;
      assert 0 <= row <= rows - 1;
      assert row * (IconHeight + IconGap) <= (rows - 1) * (IconHeight + IconGap);
    }
  }

  /** Distinct icons get distinct slots. */
  lemma ArrangedSlotsDistinct(icons: seq<Icon>, d: DesktopBox, i: int, j: int)
    requires 0 <= i < |icons| && 0 <= j < |icons| && i != j
    ensures var r := ArrangeIcons(icons, Some(d)); r[i].x != r[j].x || r[i].y != r[j].y
  {
    var rows := IconRows(d.clientHeight);
    DivModDetermines(i, j, rows);
    assert SlotX(i, rows) == SlotX(j, rows) ==> i / rows == j / rows;
    assert SlotY(i, rows) == SlotY(j, rows) ==> i % rows == j % rows;
  }

  lemma DivModDetermines(a: int, b: int, n: int)
    requires n >= 1
    ensures a / n == b / n && a % n == b % n ==> a == b
  {
    assert a == (a / n) * n + a % n;
    assert b == (b / n) * n + b % n;
  }

  /** clampIconToDesktop: unchanged without a mounted desktop; otherwise
      x in [12, max(12, clientWidth - 92 - 12)] and
      y in [12, max(12, clientHeight - 40 - 96 - 12)]. */
  function ClampIconToDesktop(x: int, y: int, desktop: Option<DesktopBox>): (r: Pos)
    ensures desktop.None? ==> r == Pos(x, y)
    ensures desktop.Some? ==>
      && DesktopPadding <= r.x <= Max(DesktopPadding, desktop.value.clientWidth - IconWidth - DesktopPadding)
      && DesktopPadding <= r.y <= Max(DesktopPadding, desktop.value.clientHeight - TaskbarHeight - IconHeight - DesktopPadding)
    ensures desktop.Some? && DesktopPadding <= x <= desktop.value.clientWidth - IconWidth - DesktopPadding ==> r.x == x
    ensures desktop.Some? && DesktopPadding <= y <= desktop.value.clientHeight - TaskbarHeight - IconHeight - DesktopPadding ==> r.y == y
  {
    match desktop
    case None => Pos(x, y)
    case Some(d) =>
      Pos(ClampAxis(x, DesktopPadding, d.clientWidth - IconWidth - DesktopPadding),
          ClampAxis(y, DesktopPadding, d.clientHeight - TaskbarHeight - IconHeight - DesktopPadding))
  }

  lemma IconClampIdempotent(x: int, y: int, desktop: Option<DesktopBox>)
    ensures var r := ClampIconToDesktop(x, y, desktop); ClampIconToDesktop(r.x, r.y, desktop) == r
  {
  }

  /** The icon drag update: the icon whose id matches takes the new
      position; every other icon, and everything else about that one, stays. */
  function MoveIcon(icons: seq<Icon>, id: string, p: Pos): (r: seq<Icon>)
    ensures |r| == |icons|
    ensures forall i :: 0 <= i < |r| && icons[i].id != id ==> r[i] == icons[i]
    ensures forall i :: 0 <= i < |r| && icons[i].id == id ==> r[i] == Icon(id, icons[i].caption, icons[i].kind, p.x, p.y)
  {
    seq(|icons|, i requires 0 <= i < |icons| => if icons[i].id == id then icons[i].(x := p.x, y := p.y) else icons[i])
  }

  /** The icon context menu: where it shows and which icon it targets. */
  datatype Menu = Menu(visible: bool, x: int, y: int, targetId: Option<string>)

  const HiddenMenu: Menu := Menu(false, 0, 0, None)

  /** JavaScript truthiness of an optional id: absent and "" are false. */
  predicate Truthy(id: Option<string>) {
    id.Some? && id.value != ""
  }

  /** `icons.filter((icon) => icon.id !== id)` */
  function WithoutIcon(icons: seq<Icon>, id: string): (r: seq<Icon>)
    ensures |r| <= |icons|
  {
    if icons == [] then [] else (if icons[0].id == id then [] else [icons[0]]) + WithoutIcon(icons[1..], id)
  }

  /** The filter keeps exactly the icons with a different id. */
  lemma {:induction false} WithoutIconMembers(icons: seq<Icon>, id: string)
    ensures forall ic :: ic in WithoutIcon(icons, id) <==> ic in icons && ic.id != id
  {
    if icons != [] {
      WithoutIconMembers(icons[1..], id);
      assert icons == [icons[0]] + icons[1..];
    }
  }

  /** onDeleteIconClick on the icons list: nothing happens without a target. */
  function DeleteIcon(icons: seq<Icon>, target: Option<string>): (r: seq<Icon>)
    ensures !Truthy(target) ==> r == icons
    ensures Truthy(target) ==> forall ic :: ic in r <==> ic in icons && ic.id != target.value
  {
    if Truthy(target) then
      WithoutIconMembers(icons, target.value);
      WithoutIcon(icons, target.value)
    else icons
  }

  predicate UniqueIds(icons: seq<Icon>) {
    forall i, j :: 0 <= i < j < |icons| ==> icons[i].id != icons[j].id
  }

  /** With unique ids, deleting an icon's id removes exactly that icon and
      keeps the others in order. */
  lemma {:induction false} DeleteRemovesExactlyTarget(icons: seq<Icon>, k: int)
    requires UniqueIds(icons) && 0 <= k < |icons| && icons[k].id != ""
    ensures DeleteIcon(icons, Some(icons[k].id)) == icons[..k] + icons[k + 1..]
  {
    WithoutIconAt(icons, k);
  }

  lemma {:induction false} WithoutIconAt(icons: seq<Icon>, k: int)
    requires UniqueIds(icons) && 0 <= k < |icons|
    ensures WithoutIcon(icons, icons[k].id) == icons[..k] + icons[k + 1..]
  {
    var before, after := icons[..k], icons[k + 1..];
    assert icons == before + [icons[k]] + after;
    assert forall a :: 0 <= a < |before| ==> before[a].id != icons[k].id;
    assert forall a :: 0 <= a < |after| ==> after[a].id != icons[k].id by {
      forall a | 0 <= a < |after| ensures after[a].id != icons[k].id {
        assert after[a] == icons[k + 1 + a];
      }
    }
    WithoutIconSplice(before, icons[k], after);
  }

  lemma {:induction false} WithoutIconSplice(before: seq<Icon>, target: Icon, after: seq<Icon>)
    requires forall a :: 0 <= a < |before| ==> before[a].id != target.id
    requires forall a :: 0 <= a < |after| ==> after[a].id != target.id
    ensures WithoutIcon(before + [target] + after, target.id) == before + after
  {
    WithoutIconAppend(before + [target], after, target.id);
    WithoutIconAppend(before, [target], target.id);
    assert WithoutIcon([target], target.id) == [] by {
      assert [target][1..] == [];
    }
    WithoutIconAbsent(before, target.id);
    WithoutIconAbsent(after, target.id);
  }

  lemma {:induction false} WithoutIconAppend(a: seq<Icon>, b: seq<Icon>, id: string)
    ensures WithoutIcon(a + b, id) == WithoutIcon(a, id) + WithoutIcon(b, id)
  {
    if a != [] {
      assert (a + b)[1..] == a[1..] + b;
      WithoutIconAppend(a[1..], b, id);
    } else {
      assert a + b == b;
    }
  }

  lemma {:induction false} WithoutIconAbsent(icons: seq<Icon>, id: string)
    requires forall i :: 0 <= i < |icons| ==> icons[i].id != id
    ensures WithoutIcon(icons, id) == icons
  {
    if icons != [] {
      WithoutIconAbsent(icons[1..], id);
      assert [icons[0]] + icons[1..] == icons;
    }
  }

  /** The first icon with the given id (`icons.find`). */
  function FindIcon(icons: seq<Icon>, id: string): (r: Option<Icon>)
    ensures r.None? <==> forall i :: 0 <= i < |icons| ==> icons[i].id != id
    ensures r.Some? ==> r.value in icons && r.value.id == id
    ensures r.Some? ==> exists i :: 0 <= i < |icons| && icons[i] == r.value && forall j :: 0 <= j < i ==> icons[j].id != id
  {
    if icons == [] then None
    else if icons[0].id == id then Some(icons[0])
    else FindIcon(icons[1..], id)
  }
}
