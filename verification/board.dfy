/** The board engine: a grid, the run length that wins, and a move counter.
    Placement drops a piece into a column with gravity; `Won` is the line
    scan of module WinCheck; `Drawn` is a full grid that is not won. */
module Boards {
  import opened Grids
  import WinCheck

  /** `rows` and `cols` are the configured shape, used when the board is
      reset. The grid itself may be replaced by any rectangular array, so no
      operation below assumes it has that shape or obeys gravity. */
  datatype Board = Board(rows: nat, cols: nat, winAt: nat, grid: Grid, nmove: int)

  /** The board after `reset`: an empty grid of the configured shape and the
      move counter back at 1. */
  function Reset(b: Board): (r: Board)
    ensures r.rows == b.rows && r.cols == b.cols && r.winAt == b.winAt
    ensures |r.grid| == b.rows && (b.rows > 0 ==> Width(r.grid) == b.cols)
    ensures forall i, j :: InGrid(r.grid, i, j) ==> r.grid[i][j] == 0
    ensures r.nmove == 1
  {
    b.(grid := Zeros(b.rows, b.cols), nmove := 1)
  }

  /** A freshly constructed board, which starts out reset. */
  function NewBoard(rows: nat, cols: nat, winAt: nat): (b: Board)
    ensures b.rows == rows && b.cols == cols && b.winAt == winAt
    ensures |b.grid| == rows && (rows > 0 ==> Width(b.grid) == cols)
    ensures forall i, j :: InGrid(b.grid, i, j) ==> b.grid[i][j] == 0
    ensures b.nmove == 1
  {
    Reset(Board(rows, cols, winAt, [], 0))
  }

  /** Column `col` exists and is not completely filled. */
  predicate IsOpen(b: Board, col: int) {
    0 <= col < Width(b.grid) && HasEmpty(b.grid, col)
  }

  /** `available_cols`: the open columns in ascending order. */
  function AvailableCols(b: Board): (cs: seq<int>)
    ensures StrictlyIncreasing(cs)
    ensures forall x :: x in cs <==> IsOpen(b, x)
  {
    OpenColumns(b.grid)
  }

  /** `b_array_invert`: the grid as the other player sees it. */
  function Invert(b: Board): (n: Grid)
    ensures SameShape(n, b.grid)
    ensures forall i, j :: InGrid(b.grid, i, j) ==> n[i][j] == -b.grid[i][j]
  {
    Negate(b.grid)
  }

  predicate Won(b: Board) {
    WinCheck.Won(b.grid, b.winAt)
  }

  /** `_board_filled`: the count of nonzero cells reaches the grid's size. */
  function Filled(b: Board): (full: bool)
    ensures full <==> forall i, j :: InGrid(b.grid, i, j) ==> b.grid[i][j] != 0
  {
    CountNonzeroRows(b.grid, |b.grid|) >= |b.grid| * Width(b.grid)
  }

  /** `drawn`: every cell is occupied and the board is not won; a full board
      with a winning window counts as won, never as drawn. */
  function Drawn(b: Board): (drawn: bool)
    ensures drawn <==> (forall i, j :: InGrid(b.grid, i, j) ==> b.grid[i][j] != 0) && !Won(b)
    ensures !(drawn && Won(b))
  {
    Filled(b) && !Won(b)
  }

  /** The largest row index at or above row `r` whose cell in column `c` is
      empty, given that every cell below row `r` is occupied. */
  function LowestEmptyFrom(g: Grid, c: int, r: int): (at: nat)
    requires 0 <= c < Width(g) && r < |g|
    requires exists i :: 0 <= i <= r && g[i][c] == 0
    requires forall i :: r < i < |g| ==> g[i][c] != 0
    ensures at <= r && g[at][c] == 0
    ensures forall i :: at < i < |g| ==> g[i][c] != 0
    decreases r
  {
    if g[r][c] == 0 then r else LowestEmptyFrom(g, c, r - 1)
  }

  /** The cell gravity fills next in an open column: the largest row index
      holding 0 (`max(np.where(col == 0))`). */
  function LowestEmpty(g: Grid, c: int): (at: nat)
    requires 0 <= c < Width(g) && HasEmpty(g, c)
    ensures at < |g| && g[at][c] == 0
    ensures forall i :: at < i < |g| ==> g[i][c] != 0
  {
    LowestEmptyFrom(g, c, |g| - 1)
  }

  /** `add_piece`: a column that is not open (out of range or full) is
      refused and nothing changes; otherwise `piece` lands in the lowest empty
      cell of the column, no other cell changes and the move counter grows by
      one. */
  function AddPiece(b: Board, col: int, piece: int): (res: (Board, bool))
    ensures res.1 <==> IsOpen(b, col)
    ensures !res.1 ==> res.0 == b
    ensures res.1 ==>
      var at := LowestEmpty(b.grid, col);
      && res.0 == b.(grid := res.0.grid, nmove := b.nmove + 1)
      && SameShape(res.0.grid, b.grid)
      && res.0.grid[at][col] == piece
      && forall i, j :: InGrid(b.grid, i, j) && (i != at || j != col) ==> res.0.grid[i][j] == b.grid[i][j]
  {
    if col !in AvailableCols(b) then (b, false)
    else
      var at := LowestEmpty(b.grid, col);
      (b.(grid := SetCell(b.grid, at, col, piece), nmove := b.nmove + 1), true)
  }

  /** Gravity in column `c`: below an occupied cell every cell is occupied. */
  predicate Settled(g: Grid, c: int)
    requires 0 <= c < Width(g)
  {
    forall i, j :: 0 <= i < j < |g| && g[i][c] != 0 ==> g[j][c] != 0
  }

  predicate Gravity(g: Grid) {
    forall c :: 0 <= c < Width(g) ==> Settled(g, c)
  }

  /** A column that obeyed gravity before a placement of a real token still
      does afterwards, whichever column received the piece. */
  lemma AddPieceKeepsSettled(b: Board, col: int, piece: int, c: int)
    requires piece != 0
    requires 0 <= c < Width(b.grid) && Settled(b.grid, c)
    ensures 0 <= c < Width(AddPiece(b, col, piece).0.grid)
    ensures Settled(AddPiece(b, col, piece).0.grid, c)
  {
    var (b', ok) := AddPiece(b, col, piece);
    if ok {
      var g, g' := b.grid, b'.grid;
      var at := LowestEmpty(g, col);
      forall i, j | 0 <= i < j < |g'| && g'[i][c] != 0
        ensures g'[j][c] != 0
      {
        assert InGrid(g, i, c) && InGrid(g, j, c);
        if c == col && i != at {
          assert g[i][c] != 0;
        }
      }
    }
  }

  lemma AddPieceKeepsGravity(b: Board, col: int, piece: int)
    requires piece != 0 && Gravity(b.grid)
    ensures Gravity(AddPiece(b, col, piece).0.grid)
  {
    forall c | 0 <= c < Width(AddPiece(b, col, piece).0.grid)
      ensures Settled(AddPiece(b, col, piece).0.grid, c)
    {
      AddPieceKeepsSettled(b, col, piece, c);
    }
  }

  /** Placing a token keeps every cell in {-1, 0, 1}. */
  lemma AddPieceKeepsTokens(b: Board, col: int, piece: int)
    requires IsTokens(b.grid) && -1 <= piece <= 1
    ensures IsTokens(AddPiece(b, col, piece).0.grid)
  {
    var (b', ok) := AddPiece(b, col, piece);
    forall i, j | InGrid(b'.grid, i, j)
      ensures -1 <= b'.grid[i][j] <= 1
    {
      assert InGrid(b.grid, i, j);
    }
  }

  /** Inverting the grid twice gives it back, and never changes whether it is won. */
  lemma InvertProperties(b: Board)
    ensures Negate(Invert(b)) == b.grid
    ensures Won(b.(grid := Invert(b))) == Won(b)
  {
    NegateInvolutive(b.grid);
    WinCheck.WonNegate(b.grid, b.winAt);
  }

  /** Right after a reset every column of a non-degenerate board is open, and
      with a positive threshold the board is neither won nor drawn. */
  lemma ResetQueries(b: Board)
    requires b.rows > 0 && b.cols > 0
    ensures forall c :: IsOpen(Reset(b), c) <==> 0 <= c < b.cols
    ensures b.winAt >= 1 ==> !Won(Reset(b)) && !Drawn(Reset(b))
  {
    var r := Reset(b);
    forall c | 0 <= c < b.cols
      ensures IsOpen(r, c)
    {
      assert r.grid[0][c] == 0;
    }
    if b.winAt >= 1 {
      WinCheck.ZerosNotWon(r.grid, r.winAt);
      assert InGrid(r.grid, 0, 0);
    }
  }
}
