/** The state of one game and its transitions as values: spawning the next
    piece, locking the falling piece, a fresh game, a key press and an
    animation tick. Random draws arrive as indices into the piece table; the
    elapsed time of a frame arrives as a whole number of milliseconds. The
    game object in TetrisGame is proved to make exactly these transitions. */
module TetrisState {
  import opened TetrisRules

  /** The keys the handler distinguishes. The arrows and `r`/`R` are matched
      on the key name, the space bar on its key code. */
  datatype Key = ArrowLeft | ArrowRight | ArrowDown | ArrowUp | Space | LetterR | OtherKey

  /** The status line: the instructions, the game-over prompt, "TETRIS!"
      for four lines at once, or "<n> line cleared". */
  datatype Status = Instructions | GameOverPrompt | FourLines | LinesCleared(count: int)

  datatype State = State(
    board: Board, piece: Piece, next: Piece, pieceX: int, pieceY: int,
    dropAccumulator: int, dropInterval: int, lines: int, level: int,
    gameOver: bool, score: int, status: Status)

  const InitialDropInterval: int := 900

  /** What every reachable state satisfies: a 20 x 10 board with no full
      row, well-formed current and next pieces, a piece row from -1 to 19,
      and the level and drop interval that the cleared line count gives. */
  predicate ValidState(s: State) {
    && IsBoard(s.board) && NoFullRow(s.board)
    && WellFormed(s.piece.shape) && WellFormed(s.next.shape)
    && -1 <= s.pieceY < Rows
    && s.lines >= 0 && s.level == LevelFor(s.lines) && s.dropInterval == DropIntervalFor(s.level)
    && s.dropAccumulator >= 0 && s.score >= 0
  }

  /** spawnPiece: the next piece becomes the falling one, centred one row
      above the board, a new next piece is drawn, and the game ends when the
      new piece cannot enter row 0. */
  function Spawned(s: State, pick: nat): (r: State)
    requires pick < |Pieces| && WellFormed(s.next.shape) && IsBoard(s.board)
    ensures r == s.(piece := r.piece, next := r.next, pieceX := r.pieceX, pieceY := r.pieceY,
                    gameOver := r.gameOver, status := r.status)
  {
    var x := SpawnX(s.next);
    var t := s.(piece := s.next, next := PieceAt(pick), pieceX := x, pieceY := -1);
    if Collision(s.board, s.next.shape, x, 0) then t.(gameOver := true, status := GameOverPrompt) else t
  }

  /** The status a lock that cleared `cleared` lines shows. */
  function ClearStatus(cleared: int): (st: Status)
    ensures st == FourLines <==> cleared >= 4
  {
    if cleared >= 4 then FourLines else LinesCleared(cleared)
  }

  /** The board a lock leaves: the piece merged, the full rows cleared. */
  function LockedBoard(s: State): (b: Board)
    requires ValidState(s)
    ensures IsBoard(b) && NoFullRow(b)
    ensures b == Cleared(Merged(s.board, s.piece, s.pieceX, s.pieceY))
  {
    var merged := Merged(s.board, s.piece, s.pieceX, s.pieceY);
    ClearedShape(merged);
    Cleared(merged)
  }

  /** The number of rows a lock clears: never more than four. */
  function LockedLines(s: State): (n: nat)
    requires ValidState(s)
    ensures n <= 4
    ensures n == CountFull(Merged(s.board, s.piece, s.pieceX, s.pieceY))
  {
    MergeClearsAtMostFour(s.board, s.piece, s.pieceX, s.pieceY);
    CountFull(Merged(s.board, s.piece, s.pieceX, s.pieceY))
  }

  /** The bookkeeping after clearing `cleared` rows: nothing when none were,
      otherwise the line count, the level and speed it gives, the score (the
      line score times the new level) and the status. */
  function Credited(s: State, cleared: nat): (r: State)
    requires cleared <= 4 && s.lines >= 0
    ensures r.lines == s.lines + cleared && r.score == s.score + LineScore(cleared) * r.level
    ensures cleared == 0 ==> r == s
    ensures cleared > 0 ==>
      && r.level == LevelFor(r.lines) && r.dropInterval == DropIntervalFor(r.level)
      && r.status == ClearStatus(cleared)
      && r == s.(lines := r.lines, level := r.level, dropInterval := r.dropInterval,
                 score := r.score, status := r.status)
  {
    if cleared == 0 then s
    else
      var lines := s.lines + cleared;
      var level := LevelFor(lines);
      s.(lines := lines, level := level, dropInterval := DropIntervalFor(level),
         score := s.score + LineScore(cleared) * level, status := ClearStatus(cleared))
  }

  /** lockAndAdvance: merge the piece into the board, clear the full rows,
      credit them, then spawn the next piece. */
  function Locked(s: State, pick: nat): State
    requires ValidState(s) && pick < |Pieces|
  {
    Spawned(Credited(s.(board := LockedBoard(s)), LockedLines(s)), pick)
  }

  /** resetGame: an empty board, a first piece drawn as `next` and spawned at
      once (drawing the second), speed 900, no lines, level 1, score 0. The
      placeholder falling piece is overwritten by the spawn. */
  function FreshGame(first: nat, second: nat): State
    requires first < |Pieces| && second < |Pieces|
  {
    var p := PieceAt(first);
    var start := State(EmptyBoard(), p, p, 0, 0, 0, InitialDropInterval, 0, 1, false, 0, Instructions);
    Spawned(start, second).(score := 0, status := Instructions)
  }

  /** A sideways move by `dx` columns, made only when the target is free. */
  function Shifted(s: State, dx: int): State
    requires IsBoard(s.board)
  {
    if Collision(s.board, s.piece.shape, s.pieceX + dx, s.pieceY) then s else s.(pieceX := s.pieceX + dx)
  }

  /** A soft drop: one row down and one point, made only when the row
      below is free. */
  function SoftDropped(s: State): State
    requires IsBoard(s.board)
  {
    if Collision(s.board, s.piece.shape, s.pieceX, s.pieceY + 1) then s
    else s.(pieceY := s.pieceY + 1, score := s.score + 1)
  }

  /** A quarter turn in place, made only when the turned piece is free. */
  function Rotated(s: State): State
    requires IsBoard(s.board) && Rectangular(s.piece.shape)
  {
    var rotated := Rotate(s.piece.shape);
    if Collision(s.board, rotated, s.pieceX, s.pieceY) then s else s.(piece := s.piece.(shape := rotated))
  }

  /** The space bar: drop to the landing row, then lock. */
  function HardDropped(s: State, pick: nat): State
    requires ValidState(s) && pick < |Pieces|
  {
    Locked(s.(pieceY := LandingRow(s.board, s.piece.shape, s.pieceX, s.pieceY)), pick)
  }

  /** onKeyDown. After the game ends only `r` does anything. `first` is the
      draw a lock or reset uses, `second` the second draw of a reset. */
  function OnKey(s: State, key: Key, first: nat, second: nat): State
    requires ValidState(s) && first < |Pieces| && second < |Pieces|
  {
    if s.gameOver then
      if key == LetterR then FreshGame(first, second) else s
    else
      match key
      case ArrowLeft => Shifted(s, -1)
      case ArrowRight => Shifted(s, 1)
      case ArrowDown => SoftDropped(s)
      case ArrowUp => Rotated(s)
      case Space => HardDropped(s, first)
      case LetterR => FreshGame(first, second)
      case OtherKey => s
  }

  /** One animation frame `delta` milliseconds after the previous one: while
      the game runs, the time accumulates, and once it reaches the drop
      interval it is reset and the piece falls a row, or locks when it cannot. */
  function OnTick(s: State, delta: nat, pick: nat): State
    requires ValidState(s) && pick < |Pieces|
  {
    if s.gameOver then s
    else
      var acc := s.dropAccumulator + delta;
      if acc >= s.dropInterval then
        var t := s.(dropAccumulator := 0);
        CollidesBelowFloor(s.board, s.piece.shape, s.pieceX, s.pieceY + 1);
        if Collision(s.board, s.piece.shape, s.pieceX, s.pieceY + 1) then Locked(t, pick)
        else t.(pieceY := s.pieceY + 1)
      else s.(dropAccumulator := acc)
  }

  lemma SpawnedValid(s: State, pick: nat)
    requires ValidState(s) && pick < |Pieces|
    ensures ValidState(Spawned(s, pick))
  {
  }

  /** A spawn hands over the next piece, draws a new one, and ends the game
      exactly when the new piece collides in row 0; nothing else changes
      except the status that announces the end. */
  lemma SpawnEndsGameExactlyOnCollision(s: State, pick: nat)
    requires ValidState(s) && pick < |Pieces|
    ensures var r := Spawned(s, pick);
      && r.piece == s.next && r.next == Pieces[pick] && r.pieceY == -1
      && 0 <= r.pieceX && r.pieceX + |s.next.shape[0]| <= Cols
      && (r.gameOver <==> s.gameOver || Collision(s.board, s.next.shape, r.pieceX, 0))
      && r.board == s.board && r.score == s.score && r.lines == s.lines && r.level == s.level
      && (r.status != s.status ==> r.gameOver && r.status == GameOverPrompt)
  {
  }

  lemma LockedValid(s: State, pick: nat)
    requires ValidState(s) && pick < |Pieces|
    ensures ValidState(Locked(s, pick))
  {
    var t := Credited(s.(board := LockedBoard(s)), LockedLines(s));
    assert ValidState(t);
    SpawnedValid(t, pick);
  }

  /** What a lock does: the board becomes the merge with its full rows
      cleared (at most four), the cleared count is added to the lines, the
      score grows by the line score times the new level, and the next piece
      is spawned. A lock that clears nothing leaves lines, level, speed and
      score alone. */
  lemma LockScoring(s: State, pick: nat)
    requires ValidState(s) && pick < |Pieces|
    ensures var merged := Merged(s.board, s.piece, s.pieceX, s.pieceY);
      var cleared := CountFull(merged);
      var r := Locked(s, pick);
      && cleared <= 4
      && r.board == Cleared(merged) && NoFullRow(r.board)
      && r.lines == s.lines + cleared && r.level == LevelFor(r.lines)
      && r.score == s.score + LineScore(cleared) * r.level
      && (cleared == 0 ==> r.level == s.level && r.dropInterval == s.dropInterval && r.score == s.score)
      && r.piece == s.next && r.next == Pieces[pick]
      && (r.gameOver <==> s.gameOver || Collision(r.board, s.next.shape, SpawnX(s.next), 0))
      && (cleared > 0 && !r.gameOver ==> r.status == ClearStatus(cleared))
  {
    var t := Credited(s.(board := LockedBoard(s)), LockedLines(s));
    SpawnEndsGameExactlyOnCollision(t, pick);
  }

  /** A new game is running, on an empty board, with the two drawn pieces as
      the falling and the next piece, and nothing scored. */
  lemma FreshGameStarts(first: nat, second: nat)
    requires first < |Pieces| && second < |Pieces|
    ensures var s := FreshGame(first, second);
      && ValidState(s) && !s.gameOver && s.status == Instructions
      && s.board == EmptyBoard() && s.piece == Pieces[first] && s.next == Pieces[second]
      && s.score == 0 && s.lines == 0 && s.level == 1 && s.dropInterval == InitialDropInterval
      && s.pieceY == -1 && s.dropAccumulator == 0
  {
    SpawnOnEmptyBoardFits(PieceAt(first));
    EmptyBoardHasNoFullRow();
  }

  lemma EmptyBoardHasNoFullRow()
    ensures NoFullRow(EmptyBoard())
  {
    EmptyRowNotFull();
  }

  lemma MovesValid(s: State)
    requires ValidState(s)
    ensures ValidState(Shifted(s, -1)) && ValidState(Shifted(s, 1))
    ensures ValidState(SoftDropped(s)) && ValidState(Rotated(s))
  {
    RotateWellFormed(s.piece.shape);
    CollidesBelowFloor(s.board, s.piece.shape, s.pieceX, s.pieceY + 1);
  }

  lemma OnKeyValid(s: State, key: Key, first: nat, second: nat)
    requires ValidState(s) && first < |Pieces| && second < |Pieces|
    ensures ValidState(OnKey(s, key, first, second))
  {
    if s.gameOver || key == LetterR {
      FreshGameStarts(first, second);
    } else if key == Space {
      LockedValid(s.(pieceY := LandingRow(s.board, s.piece.shape, s.pieceX, s.pieceY)), first);
    } else {
      MovesValid(s);
    }
  }

  lemma OnTickValid(s: State, delta: nat, pick: nat)
    requires ValidState(s) && pick < |Pieces|
    ensures ValidState(OnTick(s, delta, pick))
  {
    if !s.gameOver && s.dropAccumulator + delta >= s.dropInterval {
      LockedValid(s.(dropAccumulator := 0), pick);
      CollidesBelowFloor(s.board, s.piece.shape, s.pieceX, s.pieceY + 1);
    }
  }

  /** Once the game is over, frames change nothing and every key but `r`
      is ignored. */
  lemma GameOverFreezes(s: State, key: Key, delta: nat, first: nat, second: nat)
    requires ValidState(s) && s.gameOver && first < |Pieces| && second < |Pieces|
    ensures OnTick(s, delta, first) == s
    ensures key != LetterR ==> OnKey(s, key, first, second) == s
  {
  }

  /** The sideways moves, the soft drop and the rotation either leave the
      state alone, because their target collides, or move to a target that
      does not collide; only the soft drop scores, one point. A move that is
      taken changes only the moved coordinate (and, for the soft drop, the
      score); the rotation keeps the origin and takes the turned shape
      exactly when it is free there. */
  lemma MovesGoOnlyWhereFree(s: State, key: Key, first: nat, second: nat)
    requires ValidState(s) && !s.gameOver && first < |Pieces| && second < |Pieces|
    requires key in {ArrowLeft, ArrowRight, ArrowDown, ArrowUp}
    ensures var r := OnKey(s, key, first, second);
      && (r == s || !Collision(r.board, r.piece.shape, r.pieceX, r.pieceY))
      && r.board == s.board && r.piece.color == s.piece.color
      && (key == ArrowLeft ==> (r.pieceX == s.pieceX - 1 <==> !Collision(s.board, s.piece.shape, s.pieceX - 1, s.pieceY)))
      && (key == ArrowRight ==> (r.pieceX == s.pieceX + 1 <==> !Collision(s.board, s.piece.shape, s.pieceX + 1, s.pieceY)))
      && (key == ArrowDown ==> (r.pieceY == s.pieceY + 1 <==> !Collision(s.board, s.piece.shape, s.pieceX, s.pieceY + 1)))
      && (key == ArrowDown ==> r.score == s.score + (if r.pieceY == s.pieceY + 1 then 1 else 0))
      && (key != ArrowDown ==> r.score == s.score)
      && (key == ArrowLeft ==> r == (if Collision(s.board, s.piece.shape, s.pieceX - 1, s.pieceY) then s else s.(pieceX := s.pieceX - 1)))
      && (key == ArrowRight ==> r == (if Collision(s.board, s.piece.shape, s.pieceX + 1, s.pieceY) then s else s.(pieceX := s.pieceX + 1)))
      && (key == ArrowDown ==> r == (if Collision(s.board, s.piece.shape, s.pieceX, s.pieceY + 1) then s else s.(pieceY := s.pieceY + 1, score := s.score + 1)))
      && (key == ArrowUp ==> r == (if Collision(s.board, Rotate(s.piece.shape), s.pieceX, s.pieceY) then s else s.(piece := s.piece.(shape := Rotate(s.piece.shape)))))
  {
  }

  /** The space bar locks the piece at the row where dropping stops: the
      row below it collides, and every row it passes does not. */
  lemma HardDropLocksAtLanding(s: State, first: nat, second: nat)
    requires ValidState(s) && !s.gameOver && first < |Pieces| && second < |Pieces|
    ensures var y := LandingRow(s.board, s.piece.shape, s.pieceX, s.pieceY);
      && OnKey(s, Space, first, second) == HardDropped(s, first) == Locked(s.(pieceY := y), first)
      && s.pieceY <= y && Collision(s.board, s.piece.shape, s.pieceX, y + 1)
      && forall k :: s.pieceY < k <= y ==> !Collision(s.board, s.piece.shape, s.pieceX, k)
  {
    LandingRowPassesFreeRows(s.board, s.piece.shape, s.pieceX, s.pieceY);
  }

  /** A lock never lowers the score, the lines or the level. */
  lemma LockedProgress(s: State, pick: nat)
    requires ValidState(s) && pick < |Pieces|
    ensures var r := Locked(s, pick);
      r.score >= s.score && r.lines >= s.lines && r.level >= s.level
  {
    var t := Credited(s.(board := LockedBoard(s)), LockedLines(s));
    assert t.level >= s.level;
  }

  /** Score, lines and level never go down except by restarting. */
  lemma KeyProgressNeverDecreases(s: State, key: Key, first: nat, second: nat)
    requires ValidState(s) && first < |Pieces| && second < |Pieces| && key != LetterR
    ensures var r := OnKey(s, key, first, second);
      r.score >= s.score && r.lines >= s.lines && r.level >= s.level
  {
    if !s.gameOver && key == Space {
      LockedProgress(s.(pieceY := LandingRow(s.board, s.piece.shape, s.pieceX, s.pieceY)), first);
    }
  }

  lemma TickProgressNeverDecreases(s: State, delta: nat, pick: nat)
    requires ValidState(s) && pick < |Pieces|
    ensures var r := OnTick(s, delta, pick);
      r.score >= s.score && r.lines >= s.lines && r.level >= s.level
  {
    if !s.gameOver && s.dropAccumulator + delta >= s.dropInterval {
      LockedProgress(s.(dropAccumulator := 0), pick);
    }
  }

  /** A frame that does not reach the drop interval only adds its time; one
      that reaches it resets the accumulator and either lowers the piece by a
      row or locks it. */
  lemma TickTiming(s: State, delta: nat, pick: nat)
    requires ValidState(s) && !s.gameOver && pick < |Pieces|
    ensures var r := OnTick(s, delta, pick);
      if s.dropAccumulator + delta < s.dropInterval then
        r == s.(dropAccumulator := s.dropAccumulator + delta)
      else
        r.dropAccumulator == 0 &&
        if Collision(s.board, s.piece.shape, s.pieceX, s.pieceY + 1) then r == Locked(s.(dropAccumulator := 0), pick)
        else r == s.(dropAccumulator := 0, pieceY := s.pieceY + 1)
  {
  }
}
