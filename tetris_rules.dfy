/** The rules of the block-stacking game: a 10 x 20 board of empty or
    coloured cells, pieces given as small 0/1 matrices, collision, merging,
    line clearing, scoring and the level and speed schedule. Everything here
    is a value; the game object that changes state step by step is built on
    these definitions. */
module TetrisRules {

  const Cols: int := 10
  const Rows: int := 20

  /** A board cell: `null` or the colour of the piece that filled it. */
  datatype Cell = Empty | Filled(color: string)

  type Row = seq<Cell>
  type Board = seq<Row>

  /** A piece matrix; `true` is a filled cell. */
  type Shape = seq<seq<bool>>

  datatype Piece = Piece(shape: Shape, color: string)

  /** PIECES: I, J, L, O, S, T and Z with their colours. */
  const Pieces: seq<Piece> := [
    Piece([[true, true, true, true]], "#45d8ff"),
    Piece([[true, false, false], [true, true, true]], "#3f58ff"),
    Piece([[false, false, true], [true, true, true]], "#ff9933"),
    Piece([[true, true], [true, true]], "#ffe34f"),
    Piece([[false, true, true], [true, true, false]], "#61e66b"),
    Piece([[false, true, false], [true, true, true]], "#c766ff"),
    Piece([[true, true, false], [false, true, true]], "#ff5b66")]

  predicate IsBoard(b: Board) {
    |b| == Rows && forall y :: 0 <= y < |b| ==> |b[y]| == Cols
  }

  function EmptyRow(): (r: Row)
    ensures |r| == Cols && forall x :: 0 <= x < |r| ==> r[x] == Empty
  {
    seq(Cols, _ => Empty)
  }

  /** emptyBoard: 20 rows of 10 empty cells. */
  function EmptyBoard(): (b: Board)
    ensures IsBoard(b)
    ensures forall y, x :: 0 <= y < Rows && 0 <= x < Cols ==> b[y][x] == Empty
  {
    seq(Rows, _ => EmptyRow())
  }

  /** `row.every(Boolean)`: every cell of the row is filled. */
  predicate Full(r: Row) {
    Empty !in r
  }

  predicate NoFullRow(b: Board) {
    forall y :: 0 <= y < |b| ==> !Full(b[y])
  }

  lemma EmptyRowNotFull()
    ensures !Full(EmptyRow())
  {
    assert EmptyRow()[0] == Empty;
  }

  /** At least one row and one column, all rows of one length. */
  predicate Rectangular(m: Shape) {
    |m| > 0 && |m[0]| > 0 && forall i :: 0 <= i < |m| ==> |m[i]| == |m[0]|
  }

  /** A piece matrix as the game uses them: one to four rows of one to four
      columns, all rows alike, at least one filled cell. */
  predicate WellFormed(m: Shape) {
    && Rectangular(m) && |m| <= 4 && 1 <= |m[0]| <= 4
    && exists py, px :: 0 <= py < |m| && 0 <= px < |m[py]| && m[py][px]
  }

  /** The piece a draw of `pick` yields (randomPiece with the random index
      supplied): always a well-formed matrix with a colour. */
  function PieceAt(pick: nat): (p: Piece)
    requires pick < |Pieces|
    ensures WellFormed(p.shape) && p.color != ""
    ensures p == Pieces[pick]
  {
    var p := Pieces[pick];
    assert p.shape[|p.shape| - 1][1];
    p
  }

  /** rotateMatrix: a clockwise quarter turn. Row x of the result is column
      x of the matrix read from the bottom up. */
  function Rotate(m: Shape): (r: Shape)
    requires Rectangular(m)
    ensures Rectangular(r) && |r| == |m[0]| && |r[0]| == |m|
    ensures forall x, j :: 0 <= x < |r| && 0 <= j < |m| ==> r[x][j] == m[|m| - 1 - j][x]
  {
    seq(|m[0]|, x requires 0 <= x < |m[0]| => seq(|m|, j requires 0 <= j < |m| => m[|m| - 1 - j][x]))
  }

  /** A half turn reverses both the rows and the columns. */
  lemma RotateTwice(m: Shape)
    requires Rectangular(m)
    ensures var r := Rotate(Rotate(m));
      && Rectangular(r) && |r| == |m| && |r[0]| == |m[0]|
      && forall i, j :: 0 <= i < |m| && 0 <= j < |m[0]| ==> r[i][j] == m[|m| - 1 - i][|m[0]| - 1 - j]
  {
  }

  /** Four quarter turns give back the original matrix. */
  lemma RotateFourTimes(m: Shape)
    requires Rectangular(m)
    ensures Rotate(Rotate(Rotate(Rotate(m)))) == m
  {
    var h := Rotate(Rotate(m));
    RotateTwice(m);
    RotateTwice(h);
    var r := Rotate(Rotate(h));
    assert |r| == |m|;
    forall i | 0 <= i < |m| ensures r[i] == m[i] {
      assert |r[i]| == |m[i]|;
    }
  }

  /** A quarter turn keeps a piece well-formed, swapping its height and
      width, and keeps every filled cell (py, px) as cell (px, h - 1 - py). */
  lemma RotateWellFormed(m: Shape)
    requires WellFormed(m)
    ensures WellFormed(Rotate(m))
    ensures forall py, px :: 0 <= py < |m| && 0 <= px < |m[0]| ==> (m[py][px] <==> Rotate(m)[px][|m| - 1 - py])
  {
    var py, px :| 0 <= py < |m| && 0 <= px < |m[py]| && m[py][px];
    var r := Rotate(m);
    assert r[px][|m| - 1 - py];
  }

  /** A filled piece cell landing at column nx, row ny is blocked: it is off
      the sides or below the floor, or it meets a filled board cell. Rows
      above the board never consult it. */
  predicate Blocked(b: Board, nx: int, ny: int)
    requires IsBoard(b)
  {
    nx < 0 || nx >= Cols || ny >= Rows || (ny >= 0 && b[ny][nx].Filled?)
  }

  /** collides: some filled cell of the matrix placed at (x, y) is blocked. */
  predicate Collision(b: Board, m: Shape, x: int, y: int)
    requires IsBoard(b)
  {
    exists py, px :: 0 <= py < |m| && 0 <= px < |m[py]| && m[py][px] && Blocked(b, x + px, y + py)
  }

  /** A piece with a filled cell off either side or below the floor collides,
      whatever the board holds. */
  lemma OutOfBoundsCollides(b: Board, m: Shape, x: int, y: int, py: int, px: int)
    requires IsBoard(b) && 0 <= py < |m| && 0 <= px < |m[py]| && m[py][px]
    requires x + px < 0 || x + px >= Cols || y + py >= Rows
    ensures Collision(b, m, x, y)
  {
  }

  /** Filled cells above the board never collide with it: two boards that
      agree on the rows the piece reaches give the same answer. */
  lemma CollisionIgnoresRowsAbove(b1: Board, b2: Board, m: Shape, x: int, y: int)
    requires IsBoard(b1) && IsBoard(b2)
    requires forall ny, nx :: 0 <= ny < Rows && 0 <= nx < Cols && y <= ny < y + |m| ==> b1[ny][nx] == b2[ny][nx]
    ensures Collision(b1, m, x, y) <==> Collision(b2, m, x, y)
  {
    if Collision(b1, m, x, y) {
      var py, px :| 0 <= py < |m| && 0 <= px < |m[py]| && m[py][px] && Blocked(b1, x + px, y + py);
      assert Blocked(b2, x + px, y + py);
    }
    if Collision(b2, m, x, y) {
      var py, px :| 0 <= py < |m| && 0 <= px < |m[py]| && m[py][px] && Blocked(b2, x + px, y + py);
      assert Blocked(b1, x + px, y + py);
    }
  }

  /** A piece held entirely above the board, with its filled cells between
      the side walls, does not collide whatever the board holds. */
  lemma AboveBoardNeverCollides(b: Board, m: Shape, x: int, y: int)
    requires IsBoard(b) && y + |m| <= 0
    requires forall py, px :: 0 <= py < |m| && 0 <= px < |m[py]| && m[py][px] ==> 0 <= x + px < Cols
    ensures !Collision(b, m, x, y)
  {
  }

  /** A piece placed with its top at or below row 20 always collides, so a
      falling piece stops before leaving the board. */
  lemma CollidesBelowFloor(b: Board, m: Shape, x: int, y: int)
    requires IsBoard(b) && WellFormed(m)
    ensures y >= Rows ==> Collision(b, m, x, y)
  {
    var py, px :| 0 <= py < |m| && 0 <= px < |m[py]| && m[py][px];
    if y >= Rows {
      assert Blocked(b, x + px, y + py);
    }
  }

  /** The row where a piece dropped from row y comes to rest: the first row
      from y down whose next row collides. */
  function LandingRow(b: Board, m: Shape, x: int, y: int): (r: int)
    requires IsBoard(b) && WellFormed(m) && y < Rows
    ensures y <= r < Rows
    ensures Collision(b, m, x, r + 1)
    decreases Rows - y
  {
    CollidesBelowFloor(b, m, x, y + 1);
    if Collision(b, m, x, y + 1) then y else LandingRow(b, m, x, y + 1)
  }

  /** Every row a dropping piece passes on its way to the landing row is
      free, so the landing row is the first row from y down whose next row
      collides. */
  lemma {:induction false} LandingRowPassesFreeRows(b: Board, m: Shape, x: int, y: int)
    requires IsBoard(b) && WellFormed(m) && y < Rows
    ensures forall k :: y < k <= LandingRow(b, m, x, y) ==> !Collision(b, m, x, k)
    decreases Rows - y
  {
    CollidesBelowFloor(b, m, x, y + 1);
    if !Collision(b, m, x, y + 1) {
      LandingRowPassesFreeRows(b, m, x, y + 1);
    }
  }

  /** The landing row is the only row from y down whose next row collides
      while every row passed on the way is free. */
  lemma {:induction false} LandingRowUnique(b: Board, m: Shape, x: int, y: int, r: int)
    requires IsBoard(b) && WellFormed(m) && y <= r < Rows
    requires Collision(b, m, x, r + 1)
    requires forall k :: y < k <= r ==> !Collision(b, m, x, k)
    ensures LandingRow(b, m, x, y) == r
    decreases r - y
  {
    if y < r {
      LandingRowUnique(b, m, x, y + 1, r);
    }
  }

  /** Grid cell (nx, ny) is under a filled cell of the matrix placed at (x, y). */
  predicate Covers(m: Shape, x: int, y: int, nx: int, ny: int) {
    0 <= ny - y < |m| && 0 <= nx - x < |m[ny - y]| && m[ny - y][nx - x]
  }

  /** mergePiece: every in-bounds board cell under a filled piece cell takes
      the piece colour; cells of the piece above or outside the board are
      dropped; every other cell is unchanged. */
  function Merged(b: Board, p: Piece, x: int, y: int): (r: Board)
    requires IsBoard(b)
    ensures IsBoard(r)
  {
    seq(Rows, ny requires 0 <= ny < Rows =>
      seq(Cols, nx requires 0 <= nx < Cols => if Covers(p.shape, x, y, nx, ny) then Filled(p.color) else b[ny][nx]))
  }

  /** Cell by cell, the merge is the piece colour where the piece covers the
      cell and the old cell elsewhere. */
  lemma MergedCells(b: Board, p: Piece, x: int, y: int)
    requires IsBoard(b)
    ensures forall ny, nx :: 0 <= ny < Rows && 0 <= nx < Cols ==>
      Merged(b, p, x, y)[ny][nx] == if Covers(p.shape, x, y, nx, ny) then Filled(p.color) else b[ny][nx]
  {
  }

  /** Merging only adds colour: filled cells stay filled, rows the piece
      does not reach are unchanged, and a piece that does not collide lands
      only on empty cells. */
  lemma MergeOnlyFills(b: Board, p: Piece, x: int, y: int)
    requires IsBoard(b)
    ensures var r := Merged(b, p, x, y);
      && (forall ny, nx :: 0 <= ny < Rows && 0 <= nx < Cols && b[ny][nx].Filled? ==> r[ny][nx].Filled?)
      && (forall ny :: 0 <= ny < Rows && !(y <= ny < y + |p.shape|) ==> r[ny] == b[ny])
    ensures !Collision(b, p.shape, x, y) ==>
      forall ny, nx :: 0 <= ny < Rows && 0 <= nx < Cols && Covers(p.shape, x, y, nx, ny) ==> b[ny][nx] == Empty
  {
    var r := Merged(b, p, x, y);
    MergedCells(b, p, x, y);
    forall ny | 0 <= ny < Rows && !(y <= ny < y + |p.shape|) ensures r[ny] == b[ny] {
      assert |r[ny]| == |b[ny]|;
    }
    if !Collision(b, p.shape, x, y) {
      forall ny, nx | 0 <= ny < Rows && 0 <= nx < Cols && Covers(p.shape, x, y, nx, ny)
        ensures b[ny][nx] == Empty
      {
        var py, px := ny - y, nx - x;
        assert p.shape[py][px] && !Blocked(b, x + px, y + py);
      }
    }
  }

  /** The number of full rows. */
  function CountFull(rows: seq<Row>): (n: nat)
    ensures n <= |rows|
  {
    if rows == [] then 0 else (if Full(rows[0]) then 1 else 0) + CountFull(rows[1..])
  }

  /** The rows that are not full, in their order. */
  function Kept(rows: seq<Row>): (r: seq<Row>)
    ensures |r| + CountFull(rows) == |rows|
  {
    if rows == [] then [] else (if Full(rows[0]) then [] else [rows[0]]) + Kept(rows[1..])
  }

  /** Every kept row is a row of the input, and not a full one. */
  lemma {:induction false} KeptRows(rows: seq<Row>)
    ensures forall i :: 0 <= i < |Kept(rows)| ==> Kept(rows)[i] in rows && !Full(Kept(rows)[i])
  {
    if rows != [] {
      KeptRows(rows[1..]);
      var k := Kept(rows);
      var tail := Kept(rows[1..]);
      forall i | 0 <= i < |k| ensures k[i] in rows && !Full(k[i]) {
        if !Full(rows[0]) && i == 0 {
          assert k[i] == rows[0];
        } else {
          var t := if Full(rows[0]) then i else i - 1;
          assert k[i] == tail[t];
          assert tail[t] in rows[1..];
        }
      }
    }
  }

  function EmptyRows(n: nat): (r: seq<Row>)
    ensures |r| == n && forall i :: 0 <= i < n ==> r[i] == EmptyRow()
  {
    seq(n, _ => EmptyRow())
  }

  /** The board clearLines leaves: as many empty rows on top as full rows
      were removed, then the remaining rows in their order. */
  function Cleared(b: Board): Board
  {
    EmptyRows(CountFull(b)) + Kept(b)
  }

  /** Clearing keeps a 20 x 10 board, leaves no full row, and puts exactly
      as many empty rows on top as it removed. */
  lemma ClearedShape(b: Board)
    requires IsBoard(b)
    ensures IsBoard(Cleared(b)) && NoFullRow(Cleared(b))
    ensures forall i :: 0 <= i < CountFull(b) ==> Cleared(b)[i] == EmptyRow()
    ensures Cleared(b)[CountFull(b)..] == Kept(b)
  {
    var c := Cleared(b);
    EmptyRowNotFull();
    KeptRows(b);
    forall i | 0 <= i < |c| ensures |c[i]| == Cols && !Full(c[i]) {
      if i >= CountFull(b) {
        assert c[i] == Kept(b)[i - CountFull(b)];
        assert c[i] in b;
      }
    }
  }

  /** A board without full rows is left alone. */
  lemma {:induction false} KeptAllWhenNoneFull(rows: seq<Row>)
    requires forall i :: 0 <= i < |rows| ==> !Full(rows[i])
    ensures Kept(rows) == rows && CountFull(rows) == 0
  {
    if rows != [] {
      KeptAllWhenNoneFull(rows[1..]);
      assert [rows[0]] + rows[1..] == rows;
    }
  }

  /** Clearing twice is clearing once. */
  lemma ClearIdempotent(b: Board)
    requires IsBoard(b)
    ensures Cleared(Cleared(b)) == Cleared(b)
  {
    ClearedShape(b);
    KeptAllWhenNoneFull(Cleared(b));
  }

  lemma {:induction false} KeptAppend(a: seq<Row>, b: seq<Row>)
    ensures Kept(a + b) == Kept(a) + Kept(b)
    ensures CountFull(a + b) == CountFull(a) + CountFull(b)
  {
    if a != [] {
      assert (a + b)[1..] == a[1..] + b;
      KeptAppend(a[1..], b);
    } else {
      assert a + b == b;
    }
  }

  /** Full rows confined to the index window [lo, hi) number at most the
      part of that window inside the sequence. */
  lemma {:induction false} CountFullWithin(rows: seq<Row>, lo: int, hi: int)
    requires forall i :: 0 <= i < |rows| && Full(rows[i]) ==> lo <= i < hi
    ensures CountFull(rows) <= if hi <= lo || hi <= 0 then 0 else hi - (if lo < 0 then 0 else lo)
  {
    if rows != [] {
      var tail := rows[1..];
      assert forall i :: 0 <= i < |tail| && Full(tail[i]) ==> lo - 1 <= i < hi - 1 by {
        forall i | 0 <= i < |tail| && Full(tail[i]) ensures lo - 1 <= i < hi - 1 {
          assert tail[i] == rows[i + 1];
        }
      }
      CountFullWithin(tail, lo - 1, hi - 1);
    }
  }

  /** A lock clears at most four lines: before the merge no row is full, and
      a piece reaches at most four rows. */
  lemma MergeClearsAtMostFour(b: Board, p: Piece, x: int, y: int)
    requires IsBoard(b) && NoFullRow(b) && |p.shape| <= 4
    ensures CountFull(Merged(b, p, x, y)) <= 4
    ensures CountFull(Merged(b, p, x, y)) <= |p.shape|
  {
    MergeOnlyFills(b, p, x, y);
    var r := Merged(b, p, x, y);
    CountFullWithin(r, y, y + |p.shape|);
  }

  /** `[0, 100, 300, 500, 800][cleared]`. */
  function LineScore(cleared: int): (points: int)
    requires 0 <= cleared <= 4
    ensures points >= 0 && (points == 0 <==> cleared == 0)
    ensures cleared == 4 ==> points == 800
  {
    [0, 100, 300, 500, 800][cleared]
  }

  /** More lines at once earn more than the same lines one by one. */
  lemma LineScoreRewardsCombos(cleared: int)
    requires 2 <= cleared <= 4
    ensures LineScore(cleared) > cleared * LineScore(1)
  {
  }

  /** The level reached after `lines` cleared lines: one more per ten. */
  function LevelFor(lines: int): (level: int)
    requires lines >= 0
    ensures level >= 1
    ensures 10 * (level - 1) <= lines < 10 * level
  {
    lines / 10 + 1
  }

  /** The drop interval of a level in milliseconds: 900 at level 1, 75
      less per level, never below 120. */
  function DropIntervalFor(level: int): (ms: int)
    ensures ms >= 120
    ensures level >= 1 ==> ms <= 900
    ensures ms > 120 ==> ms == 900 - (level - 1) * 75
  {
    var raw := 900 - (level - 1) * 75;
    if 120 >= raw then 120 else raw
  }

  /** Higher levels never drop slower, and from level 12 on the piece drops
      at the floor speed. */
  lemma DropIntervalSchedule(level1: int, level2: int)
    requires 1 <= level1 <= level2
    ensures DropIntervalFor(level2) <= DropIntervalFor(level1)
    ensures level2 >= 12 ==> DropIntervalFor(level2) == 120
  {
  }

  /** The column a new piece enters at: centred, rounded down. */
  function SpawnX(p: Piece): (x: int)
    requires WellFormed(p.shape)
    ensures 0 <= x && x + |p.shape[0]| <= Cols
    ensures 2 * x <= Cols - |p.shape[0]| <= 2 * x + 1
  {
    (Cols - |p.shape[0]|) / 2
  }

  /** A well-formed piece entering an empty board never collides there. */
  lemma SpawnOnEmptyBoardFits(p: Piece)
    requires WellFormed(p.shape)
    ensures !Collision(EmptyBoard(), p.shape, SpawnX(p), 0)
  {
    var b := EmptyBoard();
    var x := SpawnX(p);
    forall py, px | 0 <= py < |p.shape| && 0 <= px < |p.shape[py]|
      ensures p.shape[py][px] ==> !Blocked(b, x + px, 0 + py)
    {
      assert b[py][x + px] == Empty;
    }
  }
}
