/** The game as the component runs it: the board routines that loop over
    cells and rows, and a game object whose fields the key handler, the
    animation frame and the lock update in place. Each routine is proved to
    compute the value its definition in TetrisRules gives, and each step of
    the object to make the transition TetrisState gives. */
module TetrisGame {
  import opened TetrisRules
  import opened TetrisState

  /** collides: scan the filled cells row by row and stop at the first one
      that is off the board or on a filled cell. */
  method Collides(board: Board, shape: Shape, x: int, y: int) returns (hit: bool)
    requires IsBoard(board)
    ensures hit == Collision(board, shape, x, y)
  {
    var py := 0;
    while py < |shape|
      invariant 0 <= py <= |shape|
      invariant forall qy, qx :: 0 <= qy < py && 0 <= qx < |shape[qy]| && shape[qy][qx] ==> !Blocked(board, x + qx, y + qy)
    {
      var px := 0;
      while px < |shape[py]|
        invariant 0 <= px <= |shape[py]|
        invariant forall qx :: 0 <= qx < px && shape[py][qx] ==> !Blocked(board, x + qx, y + py)
      {
        if shape[py][px] {
          var nx := x + px;
          var ny := y + py;
          if nx < 0 || nx >= Cols || ny >= Rows {
            return true;
          }
          if ny >= 0 && board[ny][nx].Filled? {
            return true;
          }
        }
        px := px + 1;
      }
      py := py + 1;
    }
    return false;
  }

  /** The cells a merge has written once the scan has passed rows before
      `py`, and columns before `px` in row `py`. */
  ghost predicate MergedSoFar(result: Board, board: Board, p: Piece, x: int, y: int, py: int, px: int)
    requires IsBoard(board)
  {
    && IsBoard(result)
    && forall ny, nx :: 0 <= ny < Rows && 0 <= nx < Cols ==>
      result[ny][nx] ==
        if Covers(p.shape, x, y, nx, ny) && (ny - y < py || (ny - y == py && nx - x < px))
        then Filled(p.color) else board[ny][nx]
  }

  /** mergePiece: write the piece colour into every in-bounds board cell
      under a filled piece cell. */
  method MergePiece(board: Board, p: Piece, x: int, y: int) returns (result: Board)
    requires IsBoard(board)
    ensures result == Merged(board, p, x, y)
  {
    result := board;
    var py := 0;
    while py < |p.shape|
      invariant 0 <= py <= |p.shape|
      invariant MergedSoFar(result, board, p, x, y, py, 0)
    {
      var px := 0;
      while px < |p.shape[py]|
        invariant 0 <= px <= |p.shape[py]|
        invariant MergedSoFar(result, board, p, x, y, py, px)
      {
        if p.shape[py][px] {
          var ny := y + py;
          var nx := x + px;
          if ny >= 0 && ny < Rows && nx >= 0 && nx < Cols {
            result := result[ny := result[ny][nx := Filled(p.color)]];
          }
        }
        px := px + 1;
      }
      py := py + 1;
    }
    var merged := Merged(board, p, x, y);
    MergedCells(board, p, x, y);
    forall ny | 0 <= ny < Rows ensures result[ny] == merged[ny] {
      assert |result[ny]| == |merged[ny]|;
    }
  }

  /** The rows during the bottom-up scan of clearLines: `cleared` empty
      rows on top, the rows not yet examined, then the examined rows that
      were kept. */
  ghost function Scanned(board: seq<Row>, j: int, cleared: nat): seq<Row>
    requires 0 <= j <= |board|
  {
    EmptyRows(cleared) + board[..j] + Kept(board[j..])
  }

  /** The row the scan examines next is the last row not yet examined. */
  lemma ScanLooksAt(board: seq<Row>, j: int, cleared: nat)
    requires 0 < j <= |board|
    ensures cleared + j - 1 < |Scanned(board, j, cleared)|
    ensures Scanned(board, j, cleared)[cleared + j - 1] == board[j - 1]
  {
  }

  /** Above the examined rows there are only empty ones. */
  lemma ScanTopIsEmpty(board: seq<Row>, cleared: nat, y: int)
    requires 0 <= y < cleared
    ensures y < |Scanned(board, 0, cleared)| && !Full(Scanned(board, 0, cleared)[y])
  {
    EmptyRowNotFull();
  }

  /** Cutting out a full row and putting an empty one on top examines it. */
  lemma ScanCutsFullRow(board: seq<Row>, j: int, cleared: nat)
    requires 0 < j <= |board| && Full(board[j - 1])
    ensures var s := Scanned(board, j, cleared);
      cleared + j - 1 < |s| &&
      [EmptyRow()] + (s[..cleared + j - 1] + s[cleared + j..]) == Scanned(board, j - 1, cleared + 1)
    ensures CountFull(board[j - 1..]) == CountFull(board[j..]) + 1
  {
    assert board[j - 1..][1..] == board[j..];
    assert board[..j] == board[..j - 1] + [board[j - 1]];
    var top := EmptyRows(cleared);
    var s := top + (board[..j - 1] + [board[j - 1]]) + Kept(board[j..]);
    assert s[..|top| + j - 1] == top + board[..j - 1];
    assert s[|top| + j..] == Kept(board[j..]);
    assert [EmptyRow()] + top == EmptyRows(cleared + 1);
  }

  /** Keeping a row that is not full examines it. */
  lemma ScanKeepsRow(board: seq<Row>, j: int, cleared: nat)
    requires 0 < j <= |board| && !Full(board[j - 1])
    ensures Scanned(board, j, cleared) == Scanned(board, j - 1, cleared)
    ensures CountFull(board[j - 1..]) == CountFull(board[j..])
  {
    assert board[j - 1..][1..] == board[j..];
    assert board[..j] == board[..j - 1] + [board[j - 1]];
  }

  /** Where the scan of clearLines stands: `j` rows not yet examined,
      `cleared` rows removed so far, and `y` the index examined next (the
      last unexamined row, or one of the empty rows on top once all rows are
      examined). */
  ghost predicate ScanAt(board: seq<Row>, result: seq<Row>, cleared: nat, y: int, j: int) {
    && 0 <= j <= |board|
    && (j > 0 ==> y == cleared + j - 1)
    && (j == 0 ==> -1 <= y < cleared)
    && cleared == CountFull(board[j..])
    && result == Scanned(board, j, cleared)
  }

  /** One pass of the loop body of clearLines at index y, including the
      decrement of the loop header. */
  method ExamineRow(board: seq<Row>, result: seq<Row>, cleared: nat, y: int, ghost j: int)
    returns (result': seq<Row>, cleared': nat, y': int, ghost j': int)
    requires ScanAt(board, result, cleared, y, j) && y >= 0
    ensures ScanAt(board, result', cleared', y', j')
    ensures j' + y' < j + y
  {
    if j > 0 {
      ScanLooksAt(board, j, cleared);
    } else {
      ScanTopIsEmpty(board, cleared, y);
    }
    result', cleared', y', j' := result, cleared, y, j;
    if Full(result[y]) {
      ScanCutsFullRow(board, j, cleared);
      result' := result[..y] + result[y + 1..];
      result' := [EmptyRow()] + result';
      cleared' := cleared + 1;
      y' := y + 1;
      j' := j - 1;
    } else if j > 0 {
      ScanKeepsRow(board, j, cleared);
      j' := j - 1;
    }
    y' := y' - 1;
  }

  /** clearLines: scan from the bottom row up; a full row is cut out, an
      empty row goes on top, and the same index is examined again. */
  method ClearLines(board: seq<Row>) returns (result: seq<Row>, cleared: nat)
    ensures result == Cleared(board) && cleared == CountFull(board)
  {
    result := board;
    cleared := 0;
    var y := |board| - 1;
    ghost var j := |board|;
    assert result == Scanned(board, j, cleared);
    while y >= 0
      invariant ScanAt(board, result, cleared, y, j)
      decreases j + y + 1
    {
      result, cleared, y, j := ExamineRow(board, result, cleared, y, j);
    }
    assert board[0..] == board;
  }

  /** The state of one game: the board, the falling piece and the next one,
      the piece position, the drop timer and speed, and the line, level and
      score counters with the status line. */
  class Game {
    var board: Board
    var piece: Piece
    var next: Piece
    var pieceX: int
    var pieceY: int
    var dropAccumulator: int
    var dropInterval: int
    var lines: int
    var level: int
    var gameOver: bool
    var score: int
    var status: Status

    ghost function View(): State
      reads this
    {
      State(board, piece, next, pieceX, pieceY, dropAccumulator, dropInterval, lines, level, gameOver, score, status)
    }

    ghost predicate Valid()
      reads this
    {
      ValidState(View())
    }

    /** Opening the game window resets the game. */
    constructor(first: nat, second: nat)
      requires first < |Pieces| && second < |Pieces|
      ensures Valid() && View() == FreshGame(first, second)
    {
      new;
      Reset(first, second);
    }

    /** spawnPiece */
    method SpawnPiece(pick: nat)
      requires pick < |Pieces| && WellFormed(next.shape) && IsBoard(board)
      modifies this
      ensures View() == Spawned(old(View()), pick)
    {
      var incoming := next;
      piece, next, pieceX, pieceY := incoming, PieceAt(pick), SpawnX(incoming), -1;
      var hit := Collides(board, incoming.shape, pieceX, 0);
      if hit {
        gameOver, status := true, GameOverPrompt;
      }
    }

    /** resetGame */
    method Reset(first: nat, second: nat)
      requires first < |Pieces| && second < |Pieces|
      modifies this
      ensures Valid() && View() == FreshGame(first, second)
    {
      var drawn := PieceAt(first);
      board, piece, next, pieceX, pieceY := EmptyBoard(), drawn, drawn, 0, 0;
      dropAccumulator, dropInterval, lines, level, gameOver := 0, InitialDropInterval, 0, 1, false;
      score, status := 0, Instructions;
      ghost var start := View();
      assert FreshGame(first, second) == Spawned(start, second).(score := 0, status := Instructions);
      FreshGameStarts(first, second);
      SpawnPiece(second);
      score, status := 0, Instructions;
    }

    /** hardDrop: lower the piece while the row below is free. */
    method HardDrop()
      requires IsBoard(board) && WellFormed(piece.shape) && -1 <= pieceY < Rows
      modifies this`pieceY
      ensures pieceY == LandingRow(board, piece.shape, pieceX, old(pieceY))
    {
      var hit := Collides(board, piece.shape, pieceX, pieceY + 1);
      while !hit
        invariant old(pieceY) <= pieceY < Rows
        invariant forall k :: old(pieceY) < k <= pieceY ==> !Collision(board, piece.shape, pieceX, k)
        invariant hit == Collision(board, piece.shape, pieceX, pieceY + 1)
        decreases Rows - pieceY
      {
        CollidesBelowFloor(board, piece.shape, pieceX, pieceY + 1);
        pieceY := pieceY + 1;
        hit := Collides(board, piece.shape, pieceX, pieceY + 1);
      }
      LandingRowUnique(board, piece.shape, pieceX, old(pieceY), pieceY);
    }

    /** The bookkeeping of lockAndAdvance after `cleared` rows were removed. */
    method CreditLines(cleared: nat)
      requires cleared <= 4 && lines >= 0
      modifies this`lines, this`level, this`dropInterval, this`score, this`status
      ensures View() == Credited(old(View()), cleared)
    {
      if cleared > 0 {
        lines := lines + cleared;
        level := LevelFor(lines);
        dropInterval := DropIntervalFor(level);
        score := score + LineScore(cleared) * level;
        status := ClearStatus(cleared);
      }
    }

    /** lockAndAdvance */
    method LockAndAdvance(pick: nat)
      requires Valid() && pick < |Pieces|
      modifies this
      ensures Valid() && View() == Locked(old(View()), pick)
    {
      ghost var before := View();
      LockedValid(before, pick);
      var merged := MergePiece(board, piece, pieceX, pieceY);
      var cleared;
      board, cleared := ClearLines(merged);
      assert View() == before.(board := LockedBoard(before));
      CreditLines(cleared);
      SpawnPiece(pick);
    }

    /** The ArrowLeft and ArrowRight branches of onKeyDown. */
    method Shift(dx: int)
      requires IsBoard(board)
      modifies this`pieceX
      ensures View() == Shifted(old(View()), dx)
    {
      var hit := Collides(board, piece.shape, pieceX + dx, pieceY);
      if !hit {
        pieceX := pieceX + dx;
      }
    }

    /** The ArrowDown branch of onKeyDown. */
    method SoftDrop()
      requires IsBoard(board)
      modifies this`pieceY, this`score
      ensures View() == SoftDropped(old(View()))
    {
      var hit := Collides(board, piece.shape, pieceX, pieceY + 1);
      if !hit {
        pieceY, score := pieceY + 1, score + 1;
      }
    }

    /** The ArrowUp branch of onKeyDown. */
    method RotatePiece()
      requires IsBoard(board) && Rectangular(piece.shape)
      modifies this`piece
      ensures View() == Rotated(old(View()))
    {
      var candidate := piece.(shape := Rotate(piece.shape));
      var hit := Collides(board, candidate.shape, pieceX, pieceY);
      if !hit {
        piece := candidate;
      }
    }

    /** The space-bar branch of onKeyDown: hardDrop, then lockAndAdvance. */
    method DropAndLock(pick: nat)
      requires Valid() && pick < |Pieces|
      modifies this
      ensures Valid() && View() == HardDropped(old(View()), pick)
    {
      ghost var before := View();
      HardDrop();
      assert View() == before.(pieceY := LandingRow(board, piece.shape, pieceX, before.pieceY));
      LockAndAdvance(pick);
    }

    /** onKeyDown */
    method KeyDown(key: Key, first: nat, second: nat)
      requires Valid() && first < |Pieces| && second < |Pieces|
      modifies this
      ensures Valid() && View() == OnKey(old(View()), key, first, second)
    {
      OnKeyValid(View(), key, first, second);
      if gameOver {
        if key == LetterR {
          Reset(first, second);
        }
        return;
      }
      match key
      case ArrowLeft => Shift(-1);
      case ArrowRight => Shift(1);
      case ArrowDown => SoftDrop();
      case ArrowUp => RotatePiece();
      case Space => DropAndLock(first);
      case LetterR => Reset(first, second);
      case OtherKey =>
    }

    /** The timed part of one animation frame, `delta` milliseconds after the
        previous one. */
    method Tick(delta: nat, pick: nat)
      requires Valid() && pick < |Pieces|
      modifies this
      ensures Valid() && View() == OnTick(old(View()), delta, pick)
    {
      OnTickValid(View(), delta, pick);
      if !gameOver {
        dropAccumulator := dropAccumulator + delta;
        if dropAccumulator >= dropInterval {
          dropAccumulator := 0;
          var hit := Collides(board, piece.shape, pieceX, pieceY + 1);
          if !hit {
            CollidesBelowFloor(board, piece.shape, pieceX, pieceY + 1);
            pieceY := pieceY + 1;
          } else {
            LockAndAdvance(pick);
          }
        }
      }
    }
  }
}
