# Windows XP desktop: a verified model of its window manager and Tetris

This project models the logic core of a browser imitation of the Windows XP
desktop, in Dafny. Two pages of the desktop are modelled: the React
application and the earlier standalone page.

- Windows are moved by their title bars and resized by their handles, and
  every move or resize is clamped to the viewport above the taskbar.
- An ordered window stack decides each window's z-index and whether the
  Clippy assistant floats above the windows.
- The desktop icons are laid out in columns. They can be dragged, clamped to
  the desktop and deleted from a context menu.
- The pinball window takes a responsive size and is centred when opened.
- The Tetris game has a 20 x 10 board and the seven one-sided tetrominoes.
  The model covers collision, rotation, hard drop, merging, line clearing,
  scoring, levels and gravity timing.

The modules follow the program's structure:

- `Base` holds the shared points, sizes, layout constants and the min/max
  clamp.
- `WindowStack` holds the z-order.
- `Viewport` holds the per-window clamp rules, written as one table keyed by
  the dragged element.
- `Desktop` holds the icons.
- `PinballLayout` holds the responsive pinball size.
- `Shell` holds the drag gesture machine and the application's state. That
  state is the class `DesktopShell`, whose fields are the React state the
  handlers update.
- `LegacyShell` is the same for the standalone page, as the class
  `LegacyDesktop`.
- `TetrisRules` holds the pure rules of the game.
- `TetrisState` holds one game's transitions as functions on a `State`
  record.
- `TetrisGame` holds the imperative game. `Collides`, `MergePiece` and
  `ClearLines` keep their loops. The class `Game` changes its fields in place
  the way the game's state object is mutated. Each of its methods is proved
  to make exactly the transition `TetrisState` defines.

The standalone page's clamp functions, icon arrangement and drag dispatch
(public/app.js:55-217) use the same constants and formulas as the
application's, so one definition in `Viewport`, `Desktop` and `Shell` serves
both pages. The pinball placement clamp (src/App.jsx:123-130) is
`Viewport.ClampPosition` with a margin of 12 and the taskbar reserved.

DOM reads are inputs. Each event receives a `Dom` value holding the
viewport size, the bounding rectangle of each mounted element and the
desktop box. Random pieces are inputs too: each draw is an index into the
piece table. The time between two animation frames is a whole number of
milliseconds.

## Model

| member | source | states |
|---|---|---|
| Base.ClampAxis | src/App.jsx:237-249 | the min-of-max clamp never goes below the lower bound or above max(lower, upper), keeps values already inside, and maps values below or above to the matching end |
| WindowStack.InitialStackHasNoDuplicates | src/App.jsx:39-47 | the seeded stack names each window once |
| WindowStack.Without | src/App.jsx:133 | the filter keeps exactly the ids different from the removed one |
| WindowStack.WithoutKeepsNoDuplicates | src/App.jsx:133 | filtering a stack without duplicates leaves one without duplicates |
| WindowStack.WithoutTwice | src/App.jsx:133 | filtering the same id twice is filtering it once |
| WindowStack.BringToFront | src/App.jsx:132-134 | the focused id ends up last; the ids present afterwards are the old ones plus it |
| WindowStack.BringToFrontKeepsOthers | src/App.jsx:132-134 | the other ids keep their relative order, no duplicates appear, and focusing an id already stacked keeps the stack's length |
| WindowStack.IndexOf | src/App.jsx:137 | `indexOf`: -1 exactly for an absent id; otherwise the first position that holds it |
| WindowStack.WindowZ | src/App.jsx:136-138 | z is 29 exactly for an unstacked id; a stacked id gets 30 plus its position |
| WindowStack.FocusedIsTopmost | src/App.jsx:132-138 | after a focus, the focused window's z-index is strictly above every other window's |
| WindowStack.FocusSequence | src/App.jsx:132-138 | after any sequence of focus calls, the stack has no duplicates and the id focused last is strictly topmost |
| WindowStack.TopOpenIndex | src/App.jsx:961-962 | the position of the last open id, with no open id above it, or -1 |
| WindowStack.TopOpenWindow | src/App.jsx:961-962 | nothing exactly when no stacked window is open; otherwise an open stacked id with no open id above it |
| WindowStack.FocusedOpenWindowIsTop | src/App.jsx:962 | focusing an open window makes it the topmost open window |
| WindowStack.ClippyPlacement | src/App.jsx:963 | Clippy (z 90) floats above every window when gemini or cmd is the topmost open window; otherwise Clippy (z 26) is below every stacked window |
| Viewport.ClampPosition | src/App.jsx:251-260 | the shared window rule: x in [margin, max(margin, W - w - margin)] and y in [margin, max(margin, H - reserved - h - margin)], positions already inside kept |
| Viewport.ClampPositionIdempotent | src/App.jsx:251-260 | clamping a clamped position changes nothing |
| Viewport.ClampPopupToViewport | src/App.jsx:237-249 | an unmounted popup keeps its position; a mounted one is clamped to its measured size with margin 12 and no taskbar strip |
| Viewport.PopupClampIdempotent | src/App.jsx:237-249 | clamping the popup twice is clamping it once |
| Viewport.Footprint | src/App.jsx:251-260 | `width \|\| measured \|\| fallback`: an explicit non-zero size wins, then a non-zero measurement, then the window's default |
| Viewport.ClampFrameToViewport | src/App.jsx:251-372 | each of the seven clamp*ToViewport functions keeps its window within its margin (12, or 6 for the status chip) of the viewport above the 40-pixel taskbar and keeps positions already inside |
| Viewport.FrameClampIdempotent | src/App.jsx:251-372 | every window clamp is idempotent |
| Viewport.DragPastRightEdge | src/App.jsx:251-260 | a window pushed past the right edge of a wide enough viewport rests exactly 12 pixels from it |
| Viewport.SizeOrigin | src/App.jsx:262-268 | `x ?? rect.left ?? default`: an explicit origin wins, then the measured one, then the window's default |
| Viewport.ClampWindowSize | src/App.jsx:262-325 | the three size clamps keep width in [minW, max(minW, W - left - 12)] and height in [minH, max(minH, H - 40 - top - 12)]; sizes already inside are kept; the minimums 420x280, 420x260 and 520x300 always hold |
| Viewport.SizeClampIdempotent | src/App.jsx:262-325 | clamping a clamped size changes nothing |
| Desktop.PlacedInColumn | src/App.jsx:106 | the seeded icons keep their data and sit in one column at x 28, 110 pixels apart from y 36 |
| Desktop.AvailableHeight | src/App.jsx:218-221 | the height available to icons is at least one icon |
| Desktop.IconRows | src/App.jsx:222 | at least one row; the rows computed fit the available height, and one more would not |
| Desktop.ArrangeIcons | src/App.jsx:212-233 | without a desktop, icons stay; otherwise icon i goes to column i / rows and row i mod rows; ids, labels and types are kept |
| Desktop.ArrangedIconsFitVertically | src/App.jsx:218-232 | every arranged icon lies between the padding and the bottom of the available height |
| Desktop.ArrangedSlotsDistinct | src/App.jsx:224-232 | two different icons never share a slot |
| Desktop.ClampIconToDesktop | src/App.jsx:374-387 | without a desktop the point stays; otherwise it is kept within 12 pixels of the desktop edges above the taskbar, and points already inside are kept |
| Desktop.IconClampIdempotent | src/App.jsx:374-387 | clamping an icon twice is clamping it once |
| Desktop.MoveIcon | src/App.jsx:476-480 | the icon with the dragged id takes the new position and keeps everything else; every other icon is unchanged |
| Desktop.WithoutIconMembers | src/App.jsx:694 | the icon filter keeps exactly the icons with another id |
| Desktop.DeleteIcon | src/App.jsx:689-696 | without a truthy target nothing changes; otherwise exactly the icons with another id remain |
| Desktop.DeleteRemovesExactlyTarget | src/App.jsx:689-696 | when ids are unique, deleting an icon removes exactly that icon and keeps the others in order |
| Desktop.FindIcon | src/App.jsx:935 | `find` returns nothing exactly when no icon has the id; otherwise the first listed icon with that id |
| PinballLayout.IdealWindowWidth | src/lib/utils.js:23 | floor(0.56 x viewport width) |
| PinballLayout.MaxCanvasWidthFromHeight | src/lib/utils.js:19-22 | at least 200; above 200 the canvas height fits the tallest window's inside height |
| PinballLayout.CanvasWidth | src/lib/utils.js:27 | the canvas is the window less its 16-pixel chrome, but at least 200 |
| PinballLayout.CanvasHeight | src/lib/utils.js:28 | the canvas height keeps the 620:420 ratio, rounded down |
| PinballLayout.CalculateResponsivePinballSize | src/lib/utils.js:5-35 | the width lies between the clamped minimum and the maximum window width and never exceeds the preferred 56% unless the minimum forces it; the height lies between its clamped minimum and maximum; a window that can hold canvas plus chrome does |
| Shell.ClampFrameIdempotent | src/App.jsx:237-372 | a frame moved by its own clamp rests there: clamping again changes nothing |
| Shell.HeaderDown | src/App.jsx:698-738 | a title-bar press starts a move only with the primary button, only off the title-bar buttons (the popup has no such check), and only on a mounted frame; it records the pointer's offset from the frame's corner |
| Shell.ResizeDown | src/App.jsx:740-754 | a primary-button press on a resize handle records the pointer and the window's current size; other buttons change nothing |
| Shell.IconDown | src/App.jsx:926-952 | a primary-button press on an existing icon, with the desktop mounted, records the icon's id and the pointer's offset in desktop coordinates; otherwise nothing changes |
| Shell.Released | src/App.jsx:485-489 | target and id are cleared, every recorded number is kept |
| Shell.PointerMoveTouchesOnlyTarget | src/App.jsx:389-483 | a pointer-move changes only the dragged frame's position, the resized window's size or the dragged icon; without a target it changes nothing |
| Shell.PointerMoveKeepsTracked | src/App.jsx:389-483 | a pointer-move keeps tracking exactly the movable frames and sized windows |
| Shell.MovedFrameRests | src/App.jsx:389-434 | a dropped frame rests where its clamp leaves it |
| Shell.DragFollowsPointer | src/App.jsx:698-715 | grabbing a title bar and moving the pointer by (dx, dy) places the frame at its old corner plus (dx, dy), clamped |
| Shell.ResizeFollowsPointer | src/App.jsx:442-464 | dragging a resize handle by (dx, dy) asks for the starting size plus (dx, dy), clamped |
| Shell.IconDragFollowsPointer | src/App.jsx:466-482 | dragging an icon by (dx, dy) moves it by (dx, dy), clamped to the desktop |
| Shell.MoveAfterReleaseIsIdle | src/App.jsx:485-489 | after a pointer-up, pointer-moves change nothing |
| Shell.ResizeIdempotent | src/App.jsx:491-507 | a second resize event with the same measurements changes nothing |
| Shell.ResizeKeepsShape | src/App.jsx:491-507 | a resize keeps the tracked frames, sized windows and icons |
| Shell.PinballOpenPosition | src/App.jsx:640-650 | the opened pinball window stays inside the viewport and is centred (rounded down) whenever the centre is inside |
| Shell.ReadmeFontSize | src/App.jsx:681-683 | the notepad font stays within 10..28 and takes the requested size whenever it is in range |
| Shell.CmdFontSize | src/App.jsx:685-687 | the console font stays within 11..26 and takes the requested size whenever it is in range |
| Shell.FontStepReversible | src/App.jsx:681-683 | a font step and its opposite return to the start unless a bound was hit |
| Shell.InitialPositions | src/App.jsx:55-62 | the desktop starts with a position for every movable frame |
| Shell.InitialSizes | src/App.jsx:56-67 | the desktop starts with a size for every sized window |
| Shell.PinballOpened | src/App.jsx:640-656 | opening pinball keeps every frame and window tracked |
| Shell.PinballOpenTouchesOnlyPinball | src/App.jsx:640-656 | opening pinball changes only the pinball window's size (to the responsive one) and position (to the centred one) |
| Shell.InitialLayout | src/App.jsx:55-106 | the initial layout tracks exactly the movable frames and sized windows |
| Shell.DesktopShell.constructor | src/App.jsx:30-107 | the initial state: no drag, hidden menu, nothing open, the seeded stack and layout, font sizes 13 and 14 |
| Shell.DesktopShell.HeaderPointerDown | src/App.jsx:698-924 | the drag record becomes HeaderDown of the old one |
| Shell.DesktopShell.ResizePointerDown | src/App.jsx:740-809 | the drag record becomes ResizeDown with the window's current size |
| Shell.DesktopShell.IconPointerDown | src/App.jsx:926-952 | the drag record becomes IconDown of the old one |
| Shell.DesktopShell.PointerMove | src/App.jsx:389-483 | the layout becomes PointerMoved of the old layout under the current drag |
| Shell.DesktopShell.PointerUp | src/App.jsx:485-489 | the drag record is released |
| Shell.DesktopShell.WindowResize | src/App.jsx:491-507 | the layout becomes Resized of the old one, still tracking every frame |
| Shell.DesktopShell.Focus | src/App.jsx:965-968 | the stack becomes BringToFront of the old one, still without duplicates |
| Shell.DesktopShell.OpenWindow | src/App.jsx:549-671 | the window is focused and opened, and becomes the topmost open window |
| Shell.DesktopShell.OpenPinball | src/App.jsx:640-656 | pinball is resized, centred, focused and opened, and becomes the topmost open window |
| Shell.DesktopShell.ShowProperties | src/App.jsx:524-528 | the menu hides; the popup is focused and shown |
| Shell.DesktopShell.CloseWindow | src/App.jsx:544-669 | the window leaves the open set, nothing else changes |
| Shell.DesktopShell.IconRightClick | src/App.jsx:519-522 | the menu shows at the pointer, targeting the icon |
| Shell.DesktopShell.DismissMenu | src/App.jsx:196-204 | any click hides the menu and forgets its target |
| Shell.DesktopShell.DeleteTargetedIcon | src/App.jsx:689-696 | without a target nothing changes; otherwise the targeted icon is deleted and the menu resets |
| Shell.DesktopShell.ArrangeDesktopIcons | src/App.jsx:211-235 | the icons are arranged in columns |
| Shell.DesktopShell.PlaceStatusChip | src/App.jsx:187-193 | the status chip is pinned 6 pixels from the right edge at y 10, using its measured width or 170 |
| Shell.DesktopShell.ChangeReadmeFontSize | src/App.jsx:681-683 | the notepad font steps within 10..28 |
| Shell.DesktopShell.ChangeCmdFontSize | src/App.jsx:685-687 | the console font steps within 11..26 |
| LegacyShell.LegacyTargetedIsWellTargeted | public/app.js:161-217 | every drag the standalone page can start names a frame or window the shared dispatch handles |
| LegacyShell.LegacyMoveKeepsTracked | public/app.js:161-217 | a pointer-move on the standalone page keeps tracking exactly its three frames and two sized windows |
| LegacyShell.LegacyResizeClampsOwnFrames | public/app.js:225-231 | the page's resize handler clamps the popup, explorer and notepad positions and the two sizes by the shared rules, and leaves the icons alone |
| LegacyShell.LegacyResizeKeepsTracked | public/app.js:225-231 | a resize keeps the page's tracked frames |
| LegacyShell.LegacyInitialLayout | public/app.js:25-32 | the page's initial layout tracks exactly its frames and sized windows |
| LegacyShell.LegacyDesktop.constructor | public/app.js:16-37 | the initial state: no drag, hidden menu, nothing open, font size 13 |
| LegacyShell.LegacyDesktop.HeaderPointerDown | public/app.js:301-396 | the drag record becomes HeaderDown of the old one |
| LegacyShell.LegacyDesktop.ResizePointerDown | public/app.js:343-373 | the drag record becomes ResizeDown with the window's current size |
| LegacyShell.LegacyDesktop.IconPointerDown | public/app.js:398-422 | the drag record becomes IconDown of the old one |
| LegacyShell.LegacyDesktop.PointerMove | public/app.js:161-217 | the layout becomes PointerMoved of the old one |
| LegacyShell.LegacyDesktop.PointerUp | public/app.js:219-223 | the drag record is released |
| LegacyShell.LegacyDesktop.WindowResize | public/app.js:225-231 | the layout becomes Resized of the old one |
| LegacyShell.LegacyDesktop.OpenWindow | public/app.js:272-282 | the window is opened; there is no stack to change |
| LegacyShell.LegacyDesktop.ShowProperties | public/app.js:248-251 | the menu hides and the popup shows |
| LegacyShell.LegacyDesktop.CloseWindow | public/app.js:267-286 | the window leaves the open set |
| LegacyShell.LegacyDesktop.IconRightClick | public/app.js:243-246 | the menu shows at the pointer, targeting the icon |
| LegacyShell.LegacyDesktop.DismissMenu | public/app.js:40-43 | any click hides the menu and forgets its target |
| LegacyShell.LegacyDesktop.DeleteTargetedIcon | public/app.js:292-299 | without a target nothing changes; otherwise the targeted icon is deleted and the menu resets |
| LegacyShell.LegacyDesktop.ArrangeDesktopIcons | public/app.js:54-78 | the icons are arranged in columns |
| LegacyShell.LegacyDesktop.ChangeReadmeFontSize | public/app.js:288-290 | the notepad font steps within 10..28 |
| TetrisRules.EmptyRow | src/lib/games.jsx:398-400 | ten empty cells |
| TetrisRules.EmptyBoard | src/lib/games.jsx:398-400 | a 20 x 10 board of empty cells |
| TetrisRules.EmptyRowNotFull | src/lib/games.jsx:398-400 | an empty row is not full |
| TetrisRules.PieceAt | src/lib/games.jsx:388-409 | every drawn piece is a well-formed shape with a colour, taken from the seven-piece table |
| TetrisRules.Rotate | src/lib/games.jsx:411-413 | the rotation swaps the dimensions and maps cell (x, j) to cell (h - 1 - j, x): a clockwise quarter turn |
| TetrisRules.RotateTwice | src/lib/games.jsx:411-413 | two rotations turn the shape upside down |
| TetrisRules.RotateFourTimes | src/lib/games.jsx:411-413 | four rotations give the shape back |
| TetrisRules.RotateWellFormed | src/lib/games.jsx:411-413 | a rotated piece is still a piece, with the same blocks in turned places |
| TetrisRules.OutOfBoundsCollides | src/lib/games.jsx:423-425 | a block left of, right of or below the board is a collision |
| TetrisRules.CollisionIgnoresRowsAbove | src/lib/games.jsx:426-428 | a collision depends only on the board rows the piece overlaps |
| TetrisRules.AboveBoardNeverCollides | src/lib/games.jsx:426-428 | a piece wholly above the board within the columns never collides |
| TetrisRules.CollidesBelowFloor | src/lib/games.jsx:423-425 | a piece placed at row 20 or lower always collides, which is why hard drop and gravity stop |
| TetrisRules.LandingRow | src/lib/games.jsx:494-498 | the row where dropping stops is at or below the start and above the floor, and the row below it collides |
| TetrisRules.LandingRowPassesFreeRows | src/lib/games.jsx:494-498 | every row the drop passes through is free |
| TetrisRules.LandingRowUnique | src/lib/games.jsx:494-498 | a row with all rows on the way free and the row below colliding is the landing row |
| TetrisRules.Merged | src/lib/games.jsx:434-447 | the merge leaves a 20 x 10 board |
| TetrisRules.MergedCells | src/lib/games.jsx:434-447 | each cell covered by a block inside the board takes the piece's colour; every other cell keeps its value |
| TetrisRules.MergeOnlyFills | src/lib/games.jsx:434-447 | rows the piece does not span are unchanged, and a merge at a free position only fills empty cells |
| TetrisRules.CountFull | src/lib/games.jsx:449-460 | never more full rows than rows |
| TetrisRules.Kept | src/lib/games.jsx:449-460 | the kept rows and the full rows together are all the rows |
| TetrisRules.KeptRows | src/lib/games.jsx:449-460 | every kept row is a row of the board and not full |
| TetrisRules.EmptyRows | src/lib/games.jsx:454 | n empty rows |
| TetrisRules.ClearedShape | src/lib/games.jsx:449-460 | clearing leaves a 20 x 10 board with no full row: one empty row on top per cleared row, then the kept rows in order |
| TetrisRules.KeptAllWhenNoneFull | src/lib/games.jsx:449-460 | with no full row, nothing is cleared |
| TetrisRules.ClearIdempotent | src/lib/games.jsx:449-460 | clearing a cleared board changes nothing |
| TetrisRules.KeptAppend | src/lib/games.jsx:449-460 | clearing works row by row: kept rows and counts split over concatenation |
| TetrisRules.CountFullWithin | src/lib/games.jsx:449-460 | full rows confined to a band number at most its height |
| TetrisRules.MergeClearsAtMostFour | src/lib/games.jsx:434-460 | merging a piece into a board with no full row makes at most as many full rows as the piece is tall, so at most four |
| TetrisRules.LineScore | src/lib/games.jsx:509 | points are zero exactly when nothing was cleared; four lines give 800 |
| TetrisRules.LineScoreRewardsCombos | src/lib/games.jsx:509 | clearing 2 to 4 lines at once beats clearing them one by one |
| TetrisRules.LevelFor | src/lib/games.jsx:505 | level n covers lines 10(n-1) to 10n - 1 |
| TetrisRules.DropIntervalFor | src/lib/games.jsx:506 | the interval is at least 120 ms, at most 900 ms, and 900 - 75(level - 1) while above 120 |
| TetrisRules.DropIntervalSchedule | src/lib/games.jsx:505-506 | higher levels never fall slower, and from level 12 the interval is 120 ms |
| TetrisRules.SpawnX | src/lib/games.jsx:465 | a spawned piece is centred (rounded down) and lies within the columns |
| TetrisRules.SpawnOnEmptyBoardFits | src/lib/games.jsx:462-471 | every piece spawns without collision on an empty board |
| TetrisState.Spawned | src/lib/games.jsx:462-471 | a spawn changes only the pieces, their position, the game-over flag and the status |
| TetrisState.SpawnedValid | src/lib/games.jsx:462-471 | a spawn keeps the game's invariant |
| TetrisState.SpawnEndsGameExactlyOnCollision | src/lib/games.jsx:462-471 | the next piece becomes the falling one, one row above the board, and a new one is drawn; the game ends exactly when the new piece collides in row 0 |
| TetrisState.ClearStatus | src/lib/games.jsx:510 | "TETRIS!" exactly for four or more lines |
| TetrisState.LockedBoard | src/lib/games.jsx:501-502 | a lock leaves a 20 x 10 board without full rows: the merge with its full rows cleared |
| TetrisState.LockedLines | src/lib/games.jsx:501-502 | a lock clears at most four rows, exactly the merge's full rows |
| TetrisState.Credited | src/lib/games.jsx:503-511 | nothing changes when nothing was cleared; otherwise lines grow by the count, the level and speed follow, the score grows by the line score times the new level, and the status reports the count |
| TetrisState.LockedValid | src/lib/games.jsx:500-513 | a lock keeps the game's invariant |
| TetrisState.LockScoring | src/lib/games.jsx:500-513 | what a lock does: board, lines, level, score, next piece, game over and status as the handler computes them |
| TetrisState.FreshGameStarts | src/lib/games.jsx:473-492 | a reset starts a running game on an empty board, with the two drawn pieces, score 0, 0 lines, level 1 and 900 ms |
| TetrisState.EmptyBoardHasNoFullRow | src/lib/games.jsx:398-400 | the empty board has no full row |
| TetrisState.MovesValid | src/lib/games.jsx:532-550 | moves, soft drops and rotations keep the game's invariant |
| TetrisState.OnKeyValid | src/lib/games.jsx:523-558 | every key keeps the game's invariant |
| TetrisState.OnTickValid | src/lib/games.jsx:585-597 | every frame keeps the game's invariant |
| TetrisState.GameOverFreezes | src/lib/games.jsx:525-530 | once the game is over, frames change nothing and every key except r is ignored |
| TetrisState.MovesGoOnlyWhereFree | src/lib/games.jsx:532-550 | left, right, down and up either change nothing or reach a free position; each is taken exactly when its target is free, and then only the moved coordinate changes (plus one point for the soft drop) while a blocked move returns the state unchanged; the up-arrow keeps the origin and takes the rotated shape exactly when it is free there |
| TetrisState.HardDropLocksAtLanding | src/lib/games.jsx:551-554 | the space bar locks the piece at the row where the drop stops: the row below collides and every row passed is free |
| TetrisState.LockedProgress | src/lib/games.jsx:500-513 | a lock never lowers score, lines or level |
| TetrisState.KeyProgressNeverDecreases | src/lib/games.jsx:523-554 | no key except r lowers score, lines or level |
| TetrisState.TickProgressNeverDecreases | src/lib/games.jsx:585-597 | no frame lowers score, lines or level |
| TetrisState.TickTiming | src/lib/games.jsx:585-597 | a frame below the interval only adds its time; one reaching it resets the accumulator and lowers or locks the piece |
| TetrisGame.Collides | src/lib/games.jsx:415-432 | the nested scan returns true exactly when some block lies outside the side walls or below the floor, or on a filled cell |
| TetrisGame.MergePiece | src/lib/games.jsx:434-447 | the nested loop writes exactly the merged board |
| TetrisGame.ScanCutsFullRow | src/lib/games.jsx:452-456 | removing a full row and putting an empty one on top adds one to the count and keeps the rest of the scan |
| TetrisGame.ScanKeepsRow | src/lib/games.jsx:451-458 | passing a row that is not full leaves the scan as it was |
| TetrisGame.ExamineRow | src/lib/games.jsx:451-458 | one step of the bottom-up scan keeps its invariant and makes progress, whether the row is cut and looked at again or passed |
| TetrisGame.ClearLines | src/lib/games.jsx:449-460 | the splice-and-unshift loop leaves exactly the cleared board and returns the number of full rows |
| TetrisGame.Game.constructor | src/lib/games.jsx:515-521 | opening the game starts a fresh game |
| TetrisGame.Game.SpawnPiece | src/lib/games.jsx:462-471 | the object makes exactly the spawn transition |
| TetrisGame.Game.Reset | src/lib/games.jsx:473-492 | the object becomes the fresh game |
| TetrisGame.Game.HardDrop | src/lib/games.jsx:494-498 | the while loop stops at the landing row |
| TetrisGame.Game.CreditLines | src/lib/games.jsx:503-511 | the object makes exactly the credit transition |
| TetrisGame.Game.LockAndAdvance | src/lib/games.jsx:500-513 | merge, clear, credit and spawn in place make exactly the lock transition, keeping the invariant |
| TetrisGame.Game.Shift | src/lib/games.jsx:532-539 | a sideways move, taken only when free |
| TetrisGame.Game.SoftDrop | src/lib/games.jsx:540-544 | a soft drop, taken only when free |
| TetrisGame.Game.RotatePiece | src/lib/games.jsx:545-550 | a rotation, taken only when free |
| TetrisGame.Game.DropAndLock | src/lib/games.jsx:551-554 | hard drop then lock make exactly the space-bar transition |
| TetrisGame.Game.KeyDown | src/lib/games.jsx:523-558 | the key handler makes exactly the OnKey transition, keeping the invariant |
| TetrisGame.Game.Tick | src/lib/games.jsx:579-597 | the frame handler makes exactly the OnTick transition, keeping the invariant |

## Left out

- Rendering is not modelled: the JSX, the canvas drawing of both games and the CSS classes set during a drag.
- The pinball physics is not modelled; only the window's geometry is.
- The context menu's gating is not modelled. The render tree attaches a right-click handler only to the computer, recycle and cmd icons (src/components/DesktopShell.jsx:157-161, public/app.js:488-492), and offers Delete only for recycle and cmd (src/components/DesktopShell.jsx:220-224, public/app.js:508-512). `IconRightClick` and `DeleteTargetedIcon` accept any icon, so in the model the readme or computer icon can be deleted.
- Event-listener wiring and the requestAnimationFrame scheduling are not modelled; each handler is a method called with its event's data.
- `randomPiece` is not modelled as randomness: each draw is an index `pick < 7` passed in by the caller.
- `performance.now()` and `lastTime` are not modelled: a frame receives its elapsed time `delta` as a whole number of milliseconds, so fractional timestamps are rounded away.
- `cloneMatrix` is the identity, because values in the model are never shared.
- The network calls are not modelled: site info, Gemini key validation, the console's Gemini request, `formatGeminiOutputForCmd` and the status pings. Shell.DesktopShell.ShowProperties keeps only the menu, stack and visibility effects of the properties click.
- The Gemini key draft, the console input and lines, and the Clippy bubble are not modelled. Neither are the start menu toggle, the dog click and key saving: they only set text or flags.
- The `closest("button")` test is not modelled; it arrives as a boolean `onButton`.
- Shell.HeaderDown: properties-popup presses ignore `onButton`, as the handler has no button check. Every other title bar ignores presses on its buttons.
- The `!state` checks in the Tetris key and frame handlers are not modelled: the model's game always exists, because opening the window resets it.
- TetrisState.FreshGame: the falling piece starts as a placeholder (the first draw) where the source has `null`. The spawn overwrites it at once, so nothing observes it.
- TetrisState.Credited: the score is credited with the level reached by this lock. The source's deferred state updater reads `state.level` when React runs it, which is the same value unless another lock runs first.
- The React copies of score, lines and level are not modelled separately. The model keeps one score, in the game state.
- The status texts are the constructors of `Status` rather than strings.
- The hard-drop key is recognised by its key code and the other keys by their key names; `Key` keeps only the distinction the handler makes.
- TetrisGame.Game.HardDrop requires only what its loop uses, not the whole game invariant.
- TetrisGame.ExamineRow is the body of the `clearLines` loop, factored out, including the `y += 1` that looks at a row again.
- PinballLayout.IdealWindowWidth: `viewportWidth * 0.56` is computed exactly as floor(56 x width / 100), without floating-point rounding.
- The pinball size for server-side rendering (1280 x 800) is not modelled.
- Drag-record fields that a pointer-down leaves undefined are 0 in the model; no branch reads them.
- Positions and sizes of the windows are kept in maps keyed by frame, not in separate state variables.
- The paint window has no state in the desktop: no position, size or open flag.
- Properties visibility (`isLoading || error || siteInfo`) is modelled as membership of the open set.

## Notes on the code

- A window missing from the stack gets z-index 29, because `indexOf` returns -1 and 30 + -1 is 29. The model follows the code.
- The Tetris timer drops the piece when the accumulated time reaches the interval exactly (`>=`). The model follows the code.
- The properties popup's title bar starts a drag even on its close button, because its handler has no button check. The model follows the code.
