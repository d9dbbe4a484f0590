/** Concrete games the repository's own tests describe, derived here from the
    general contracts rather than by evaluation. */
module Scenarios {
  import opened Wrappers
  import opened Grids
  import WinCheck
  import Boards
  import Players
  import opened FourInRowEnv
  import Positions

  // ----- the board --------------------------------------------------------

  /** Any ascending list of exactly the open columns is the open-column list. */
  lemma OpenColumnsAre(b: Boards.Board, cs: seq<int>)
    requires StrictlyIncreasing(cs)
    requires forall x :: x in cs <==> 0 <= x < Width(b.grid) && HasEmpty(b.grid, x)
    ensures Boards.AvailableCols(b) == cs
  {
    IncreasingUnique(Boards.AvailableCols(b), cs);
  }

  /** On an empty 3 x 4 board every column is open. */
  lemma AvailableColsEmpty(b: Boards.Board)
    requires b.grid == [[0, 0, 0, 0], [0, 0, 0, 0], [0, 0, 0, 0]]
    ensures Boards.AvailableCols(b) == [0, 1, 2, 3]
  {
    forall x | 0 <= x < 4
      ensures HasEmpty(b.grid, x)
    {
      assert b.grid[0][x] == 0;
    }
    OpenColumnsAre(b, [0, 1, 2, 3]);
  }

  /** A full last column drops out of the open columns. */
  lemma AvailableColsLastFull(b: Boards.Board)
    requires b.grid == [[0, 0, 0, -1], [1, 0, 0, -1], [1, 0, 0, -1]]
    ensures Boards.AvailableCols(b) == [0, 1, 2]
  {
    forall x | 0 <= x < 3
      ensures HasEmpty(b.grid, x)
    {
      assert b.grid[0][x] == 0;
    }
    assert !HasEmpty(b.grid, 3);
    OpenColumnsAre(b, [0, 1, 2]);
  }

  /** A full board has no open column. */
  lemma AvailableColsFull(b: Boards.Board)
    requires b.grid == [[1, 1, -1, -1], [1, 1, -1, -1], [1, 1, -1, -1]]
    ensures Boards.AvailableCols(b) == []
  {
    forall x | 0 <= x < 4
      ensures !HasEmpty(b.grid, x)
    {
    }
    OpenColumnsAre(b, []);
  }

  /** A successful drop writes exactly one cell of the grid. */
  lemma DropWrites(b: Boards.Board, col: int, piece: int, at: nat)
    requires 0 <= col < Width(b.grid) && at < |b.grid| && b.grid[at][col] == 0
    requires forall i :: at < i < |b.grid| ==> b.grid[i][col] != 0
    ensures Boards.AddPiece(b, col, piece).1
    ensures Boards.AddPiece(b, col, piece).0 == b.(grid := b.grid[at := b.grid[at][col := piece]], nmove := b.nmove + 1)
  {
    assert HasEmpty(b.grid, col);
    var low := Boards.LowestEmpty(b.grid, col);
    assert low == at;
    SameCells(Boards.AddPiece(b, col, piece).0.grid, b.grid[at := b.grid[at][col := piece]]);
  }

  /** The boards of the stacking example, before and after one, two and three drops. */
  const Stack1: Boards.Board := Boards.Board(3, 4, 2, [[0, 0, 0, 0], [0, 0, 0, 0], [-1, 0, 0, 0]], 2)
  const Stack2: Boards.Board := Boards.Board(3, 4, 2, [[0, 0, 0, 0], [1, 0, 0, 0], [-1, 0, 0, 0]], 3)
  const Stack3: Boards.Board := Boards.Board(3, 4, 2, [[1, 0, 0, 0], [1, 0, 0, 0], [-1, 0, 0, 0]], 4)

  const Stack0: Boards.Board := Boards.Board(3, 4, 2, [[0, 0, 0, 0], [0, 0, 0, 0], [0, 0, 0, 0]], 1)

  lemma StackEmpty()
    ensures Boards.NewBoard(3, 4, 2) == Stack0
  {
    SameCells(Boards.NewBoard(3, 4, 2).grid, Stack0.grid);
  }

  lemma StackFirst(b: Boards.Board)
    requires b == Stack0
    ensures Boards.AddPiece(b, 0, -1) == (Stack1, true)
  {
    DropWrites(b, 0, -1, 2);
    StackFirstCells(b.grid);
  }

  lemma StackFirstCells(g: Grid)
    requires g == Stack0.grid
    ensures g[2 := g[2][0 := -1]] == Stack1.grid
  {
    assert g[2][0 := -1] == Stack1.grid[2];
  }

  lemma StackSecond(b: Boards.Board)
    requires b == Stack1
    ensures Boards.AddPiece(b, 0, 1) == (Stack2, true)
  {
    DropWrites(b, 0, 1, 1);
    StackSecondCells(b.grid);
  }

  lemma StackSecondCells(g: Grid)
    requires g == Stack1.grid
    ensures g[1 := g[1][0 := 1]] == Stack2.grid
  {
    assert g[1][0 := 1] == Stack2.grid[1];
  }

  lemma StackThird(b: Boards.Board)
    requires b == Stack2
    ensures Boards.AddPiece(b, 0, 1) == (Stack3, true)
  {
    DropWrites(b, 0, 1, 0);
    StackThirdCells(b.grid);
  }

  lemma StackThirdCells(g: Grid)
    requires g == Stack2.grid
    ensures g[0 := g[0][0 := 1]] == Stack3.grid
  {
    assert g[0][0 := 1] == Stack3.grid[0];
  }

  /** Three pieces dropped into column 0 of an empty 3 x 4 board stack from
      the bottom up; a fourth is refused and leaves the board alone. */
  lemma AddPieceStacks()
    ensures Boards.NewBoard(3, 4, 2) == Stack0
    ensures Boards.AddPiece(Stack0, 0, -1) == (Stack1, true)
    ensures Boards.AddPiece(Stack1, 0, 1) == (Stack2, true)
    ensures Boards.AddPiece(Stack2, 0, 1) == (Stack3, true)
    ensures Boards.AddPiece(Stack3, 0, 1) == (Stack3, false)
  {
    StackEmpty();
    StackFirst(Stack0);
    StackSecond(Stack1);
    StackThird(Stack2);
    assert !HasEmpty(Stack3.grid, 0);
  }

  /** Two grids of one shape that agree cell by cell are equal. */
  lemma SameCells(g: Grid, h: Grid)
    requires SameShape(g, h)
    requires forall i, j :: InGrid(g, i, j) ==> g[i][j] == h[i][j]
    ensures g == h
  {
    forall i | 0 <= i < |g|
      ensures g[i] == h[i]
    {
      forall j | 0 <= j < |g[i]|
        ensures g[i][j] == h[i][j]
      {
        assert InGrid(g, i, j);
      }
    }
  }

  /** A 2 x 2 board with threshold 3 can never be won, so it is drawn exactly
      when it is full. */
  lemma DrawnExamples()
    ensures !Boards.Drawn(Boards.NewBoard(2, 2, 3))
    ensures !Boards.Drawn(Boards.Board(2, 2, 3, [[1, 0], [1, -1]], 1))
    ensures Boards.Drawn(Boards.Board(2, 2, 3, [[1, 1], [1, -1]], 1))
    ensures !Boards.Won(Boards.Board(2, 2, 3, [[1, 1], [1, -1]], 1))
  {
    var b0 := Boards.NewBoard(2, 2, 3);
    assert InGrid(b0.grid, 0, 0) && b0.grid[0][0] == 0;
    var g1: Grid := [[1, 0], [1, -1]];
    assert InGrid(g1, 0, 1);
    var g2: Grid := [[1, 1], [1, -1]];
    WinCheck.TooLongNeverWins(g2, 3);
  }

  /** A pair of +1 along the bottom row wins at threshold 2. */
  lemma WonInRow()
    ensures Boards.Won(Boards.Board(3, 3, 2, [[0, 0, 0], [-1, 0, 0], [1, 1, 0]], 1))
  {
    ConnectedWins([[0, 0, 0], [-1, 0, 0], [1, 1, 0]], 2, 2, 0, WinCheck.Horizontal, 1);
  }

  /** A pair of -1 up the first column wins at threshold 2. */
  lemma WonInColumn()
    ensures Boards.Won(Boards.Board(3, 3, 2, [[-1, 0, 0], [-1, 0, 0], [1, -1, 1]], 1))
  {
    ConnectedWins([[-1, 0, 0], [-1, 0, 0], [1, -1, 1]], 2, 0, 0, WinCheck.Vertical, -1);
  }

  /** A pair of -1 on a short diagonal wins at threshold 2. */
  lemma WonOnDiagonal()
    ensures Boards.Won(Boards.Board(3, 3, 2, [[0, 0, 0], [-1, 0, 1], [1, -1, 1]], 1))
  {
    ConnectedWins([[0, 0, 0], [-1, 0, 1], [1, -1, 1]], 2, 1, 0, WinCheck.Diagonal, -1);
  }

  /** Three +1 on the main diagonal win at threshold 3. */
  lemma WonOnMainDiagonal()
    ensures Boards.Won(Boards.Board(3, 3, 3, [[1, 0, 0], [-1, 1, 0], [-1, -1, 1]], 1))
  {
    ConnectedWins([[1, 0, 0], [-1, 1, 0], [-1, -1, 1]], 3, 0, 0, WinCheck.Diagonal, 1);
  }

  /** A uniform run of tokens on a token grid is a win. */
  lemma ConnectedWins(g: Grid, w: nat, r: int, c: int, d: WinCheck.Direction, p: int)
    requires IsTokens(g) && w >= 1 && (p == 1 || p == -1)
    requires WinCheck.RunOf(g, r, c, d, w, p)
    ensures WinCheck.Won(g, w)
  {
    WinCheck.RunOfIffUniform(g, r, c, d, w, p);
    WinCheck.WonIffConnected(g, w);
  }

  // ----- the environment ----------------------------------------------------

  /** The default 6 x 7 environment with a fresh sequential trainer. */
  const Trained: Env := RegisterTrainer(Init(6, 7).value, Players.Sequential("TST", 0))

  lemma TrainedIsFresh()
    ensures Trained.board.winAt == 4
    ensures !Trained.done && Trained.cols == 7 && Trained.nwrongMoves == 0
    ensures Trained.trainer == Some(Players.Sequential("TST", 0))
    ensures |State(Trained)| == 6 && Width(State(Trained)) == 7
    ensures forall i, j :: InGrid(State(Trained), i, j) ==> State(Trained)[i][j] == 0
  {
  }

  /** The trainer's view of a grid with 7 columns makes a counter at 0 answer column 0. */
  lemma SequentialOpensAtZero(g: Grid)
    requires Width(g) == 7
    ensures Players.GetAction(Players.Sequential("TST", 0), Negate(g)) == Some((0, Players.Sequential("TST", 1)))
  {
  }

  /** The only change on the board is at (r, c), and it now holds p. */
  lemma DropOntoEmptyColumn(b: Boards.Board, c: int, p: int, r: nat)
    requires 0 <= c < Width(b.grid) && r < |b.grid| && b.grid[r][c] == 0
    requires forall i :: r < i < |b.grid| ==> b.grid[i][c] != 0
    ensures Boards.IsOpen(b, c)
    ensures
      var b' := Boards.AddPiece(b, c, p).0;
      && SameShape(b'.grid, b.grid) && b'.nmove == b.nmove + 1
      && b'.rows == b.rows && b'.cols == b.cols && b'.winAt == b.winAt
      && forall i, j :: InGrid(b.grid, i, j) ==> b'.grid[i][j] == (if i == r && j == c then p else b.grid[i][j])
  {
    assert HasEmpty(b.grid, c);
    assert Boards.LowestEmpty(b.grid, c) == r;
  }

  const AfterTrainerStep: Grid := [
    [ 0, 0, 0, 0, 0, 0, 0],
    [ 0, 0, 0, 0, 0, 0, 0],
    [ 0, 0, 0, 0, 0, 0, 0],
    [ 0, 0, 0, 0, 0, 0, 0],
    [ 0, 0, 0, 0, 0, 0, 0],
    [-1, 0, 0, 0, 0, 0, 0]]

  /** A grid holding one +1, one -1 and nothing else is not won at any
      threshold of two or more. */
  lemma OnePieceEachNotWon(g: Grid, r1: int, c1: int, r2: int, c2: int, w: nat)
    requires w >= 2 && (r1 != r2 || c1 != c2)
    requires forall i, j :: InGrid(g, i, j) ==>
      g[i][j] == (if i == r1 && j == c1 then 1 else if i == r2 && j == c2 then -1 else 0)
    ensures !WinCheck.Won(g, w)
  {
    WinCheck.NoWinWithoutEqualPair(g, w);
  }

  /** An empty 6 x 7 board with the usual threshold. */
  ghost predicate EmptyDefault(b: Boards.Board) {
    && |b.grid| == 6 && Width(b.grid) == 7 && b.winAt == 4
    && forall i, j :: InGrid(b.grid, i, j) ==> b.grid[i][j] == 0
  }

  /** The board after the trainer's first drop into an empty 6 x 7 board. */
  lemma FirstTrainerDrop(b: Boards.Board)
    requires EmptyDefault(b)
    ensures Boards.IsOpen(b, 0)
    ensures Boards.AddPiece(b, 0, -1).0.grid == AfterTrainerStep
    ensures !Boards.Won(Boards.AddPiece(b, 0, -1).0)
    ensures !Boards.Drawn(Boards.AddPiece(b, 0, -1).0)
  {
    DropOntoEmptyColumn(b, 0, -1, 5);
    var b' := Boards.AddPiece(b, 0, -1).0;
    OnePieceEachNotWon(b'.grid, 6, 6, 5, 0, 4);
    assert InGrid(b'.grid, 0, 0) && b'.grid[0][0] == 0;
    SameCells(b'.grid, AfterTrainerStep);
  }

  /** On a fresh board the sequential trainer drops -1 into column 0; the
      game goes on with a zero reward and no outcome tag. */
  lemma TrainerStepOnFreshEnv()
    ensures TrainerStep(Trained).Success?
    ensures State(TrainerStep(Trained).value) == AfterTrainerStep
    ensures TrainerStep(Trained).value.reward == 0.0
    ensures TrainerStep(Trained).value.info.None? && !TrainerStep(Trained).value.done
  {
    TrainedIsFresh();
    SequentialOpensAtZero(State(Trained));
    var e2 := Trained.(trainer := Some(Players.Sequential("TST", 1)));
    assert TrainerStep(Trained) == Act(e2, 0, true);
    FirstTrainerDrop(Trained.board);
  }

  const AfterStep: Grid := [
    [ 0, 0, 0, 0, 0, 0, 0],
    [ 0, 0, 0, 0, 0, 0, 0],
    [ 0, 0, 0, 0, 0, 0, 0],
    [ 0, 0, 0, 0, 0, 0, 0],
    [-1, 0, 0, 0, 0, 0, 0],
    [ 1, 0, 0, 0, 0, 0, 0]]

  /** The learner's +1 in column 0 of an empty 6 x 7 board decides nothing. */
  lemma FirstLearnerDrop(b: Boards.Board)
    requires EmptyDefault(b)
    ensures Boards.IsOpen(b, 0)
    ensures
      var b' := Boards.AddPiece(b, 0, 1).0;
      && |b'.grid| == 6 && Width(b'.grid) == 7 && b'.winAt == 4
      && (forall i, j :: InGrid(b'.grid, i, j) ==> b'.grid[i][j] == (if i == 5 && j == 0 then 1 else 0))
      && !Boards.Won(b') && !Boards.Drawn(b')
  {
    DropOntoEmptyColumn(b, 0, 1, 5);
    var b' := Boards.AddPiece(b, 0, 1).0;
    OnePieceEachNotWon(b'.grid, 5, 0, 6, 6, 4);
    assert InGrid(b'.grid, 0, 0) && b'.grid[0][0] == 0;
  }

  /** The trainer's -1 on top of it in column 0 decides nothing either. */
  lemma TrainerReplyDrop(b: Boards.Board)
    requires |b.grid| == 6 && Width(b.grid) == 7 && b.winAt == 4
    requires forall i, j :: InGrid(b.grid, i, j) ==> b.grid[i][j] == (if i == 5 && j == 0 then 1 else 0)
    ensures Boards.IsOpen(b, 0)
    ensures Boards.AddPiece(b, 0, -1).0.grid == AfterStep
    ensures !Boards.Won(Boards.AddPiece(b, 0, -1).0) && !Boards.Drawn(Boards.AddPiece(b, 0, -1).0)
  {
    assert InGrid(b.grid, 5, 0);
    DropOntoEmptyColumn(b, 0, -1, 4);
    var b' := Boards.AddPiece(b, 0, -1).0;
    OnePieceEachNotWon(b'.grid, 5, 0, 4, 0, 4);
    assert InGrid(b'.grid, 0, 0) && b'.grid[0][0] == 0;
    SameCells(b'.grid, AfterStep);
  }

  /** A full step into column 0 of a fresh board: the learner's +1 lands at
      the bottom, the sequential trainer answers in the same column, and the
      game goes on with a zero reward, no outcome tag and no wrong move. */
  lemma StepOnFreshEnv()
    ensures Step(Trained, 0).Success?
    ensures State(Step(Trained, 0).value) == AfterStep
    ensures Step(Trained, 0).value.reward == 0.0 && !Step(Trained, 0).value.done
    ensures Step(Trained, 0).value.info.None? && Step(Trained, 0).value.nwrongMoves == 0
  {
    TrainedIsFresh();
    FirstLearnerDrop(Trained.board);
    var b1 := Boards.AddPiece(Trained.board, 0, 1).0;
    var e1 := Trained.(board := b1, reward := 0.0, done := false, info := None);
    assert Step(Trained, 0) == TrainerStep(e1);
    SequentialOpensAtZero(State(e1));
    var e2 := e1.(trainer := Some(Players.Sequential("TST", 1)));
    assert TrainerStep(e1) == Act(e2, 0, true);
    TrainerReplyDrop(b1);
  }

  const FullFirstColumn: Grid := [
    [ 1, 0, 0, 0, 0, 0, 0],
    [-1, 0, 0, 0, 0, 0, 0],
    [ 1, 0, 0, 0, 0, 0, 0],
    [ 1, 0, 0, 0, 0, 0, 0],
    [-1, 0, 0, 0, 0, 0, 0],
    [ 1, 0, 0, 0, 0, 0, 0]]

  /** Stepping into a full column is a wrong move: the board stays as it was,
      the penalty is the reward, one wrong move is counted and the episode
      goes on. */
  lemma StepWrongMoveExample()
    ensures
      var e := Trained.(board := Trained.board.(grid := FullFirstColumn));
      && Step(e, 0).Success?
      && State(Step(e, 0).value) == FullFirstColumn
      && Step(e, 0).value.reward == WrongValue
      && Step(e, 0).value.info == Some(WrongMove)
      && Step(e, 0).value.nwrongMoves == 1
      && !Step(e, 0).value.done
  {
    TrainedIsFresh();
    assert !HasEmpty(FullFirstColumn, 0);
  }

  const LearnerWinsBefore: Grid := [
    [ 1, 1,-1,-1, 1, 1, 0],
    [-1,-1, 1, 1,-1, 1, 1],
    [ 1, 1,-1,-1, 1, 1,-1],
    [-1,-1, 1, 1,-1,-1, 1],
    [ 1, 1,-1,-1, 1, 1,-1],
    [-1,-1, 1, 1,-1,-1, 1]]

  const LearnerWinsAfter: Grid := [
    [ 1, 1,-1,-1, 1, 1, 1],
    [-1,-1, 1, 1,-1, 1, 1],
    [ 1, 1,-1,-1, 1, 1,-1],
    [-1,-1, 1, 1,-1,-1, 1],
    [ 1, 1,-1,-1, 1, 1,-1],
    [-1,-1, 1, 1,-1,-1, 1]]

  /** The top cell of column 6 is the only empty one there. */
  lemma LearnerDropRow(b: Boards.Board)
    requires b.grid == LearnerWinsBefore
    ensures Boards.IsOpen(b, 6) && Boards.LowestEmpty(b.grid, 6) == 0
  {
    var g := b.grid;
    assert g[0][6] == 0;
    assert g[1][6] == 1 && g[2][6] == -1 && g[3][6] == 1 && g[4][6] == -1 && g[5][6] == 1;
  }

  lemma LearnerDropCells(g: Grid)
    requires g == LearnerWinsBefore
    ensures g[0 := g[0][6 := 1]] == LearnerWinsAfter
  {
    assert LearnerWinsBefore[0][6 := 1] == LearnerWinsAfter[0];
    assert LearnerWinsBefore[0 := LearnerWinsAfter[0]] == LearnerWinsAfter;
  }

  /** The learner's +1 lands in the last open cell, the top of column 6. */
  lemma LearnerDropGrid(b: Boards.Board)
    requires b.grid == LearnerWinsBefore
    ensures Boards.IsOpen(b, 6)
    ensures Boards.AddPiece(b, 6, 1).0 == b.(grid := LearnerWinsAfter, nmove := b.nmove + 1)
  {
    LearnerDropRow(b);
    LearnerDropCells(b.grid);
  }

  /** ... and completes an anti-diagonal of four. */
  lemma LearnerWinningDrop(b: Boards.Board)
    requires b.grid == LearnerWinsBefore && b.winAt == 4
    ensures Boards.IsOpen(b, 6)
    ensures Boards.AddPiece(b, 6, 1).0.grid == LearnerWinsAfter
    ensures Boards.Won(Boards.AddPiece(b, 6, 1).0)
  {
    LearnerDropGrid(b);
    AntiDiagonalWin();
  }

  lemma AntiDiagonalWin()
    ensures WinCheck.Won(LearnerWinsAfter, 4)
  {
    var g := LearnerWinsAfter;
    forall i, j | InGrid(g, i, j)
      ensures -1 <= g[i][j] <= 1
    {
      assert g[i] in g;
    }
    ConnectedWins(g, 4, 0, 6, WinCheck.AntiDiagonal, 1);
  }

  /** A winning learner move ends the episode as won with the win reward; the
      trainer is not consulted. */
  lemma StepWinExample()
    ensures
      var e := Trained.(board := Trained.board.(grid := LearnerWinsBefore));
      && Step(e, 6).Success?
      && State(Step(e, 6).value) == LearnerWinsAfter
      && Step(e, 6).value.reward == WonValue
      && Step(e, 6).value.info == Some(Won)
      && Step(e, 6).value.nwrongMoves == 0
      && Step(e, 6).value.done
  {
    TrainedIsFresh();
    LearnerWinningDrop(Trained.board.(grid := LearnerWinsBefore));
  }

  // ----- positions decided by the cell-by-cell scan -------------------------

  /** A token grid on which the cell-by-cell scan finds no run is not won. */
  lemma ScanNotWon(g: Grid, w: nat)
    requires IsTokens(g) && w >= 1 && !WinCheck.RunInRows(g, w, 0)
    ensures !WinCheck.Won(g, w)
  {
    WinCheck.WonIffScan(g, w);
  }

  /** The empty 3 x 3 board and a scattered one with no equal neighbours in
      a line are not won at threshold 2. */
  lemma NotWonExamples(b: Boards.Board, b': Boards.Board)
    requires b.grid == [[0, 0, 0], [0, 0, 0], [0, 0, 0]] && b.winAt == 2
    requires b'.grid == [[0, 0, 0], [-1, 0, 0], [1, 0, 1]] && b'.winAt == 2
    ensures !Boards.Won(b) && !Boards.Won(b')
  {
    WinCheck.ZerosNotWon(b.grid, 2);
    assert !WinCheck.RunInRows([[0, 0, 0], [-1, 0, 0], [1, 0, 1]], 2, 0);
    ScanNotWon(b'.grid, 2);
  }

  /** Diagonals shorter than the board count: on a 2 x 3 board at threshold
      2 a pair on an anti-diagonal or on a diagonal wins, and a bottom row of
      alternating tokens under an empty row does not. */
  lemma ShortDiagonalExamples(b1: Boards.Board, b2: Boards.Board, b3: Boards.Board)
    requires b1.grid == [[0, 0, 1], [-1, 1, -1]] && b1.winAt == 2
    requires b2.grid == [[0, -1, 0], [-1, 1, -1]] && b2.winAt == 2
    requires b3.grid == [[0, 0, 0], [-1, 1, -1]] && b3.winAt == 2
    ensures Boards.Won(b1) && Boards.Won(b2) && !Boards.Won(b3)
  {
    ShortAntiDiagonalPair(b1.grid);
    ShortDiagonalPair(b2.grid);
    ShortDiagonalsApart(b3.grid);
  }

  lemma ShortAntiDiagonalPair(g: Grid)
    requires g == [[0, 0, 1], [-1, 1, -1]]
    ensures WinCheck.Won(g, 2)
  {
    ConnectedWins(g, 2, 0, 2, WinCheck.AntiDiagonal, 1);
  }

  lemma ShortDiagonalPair(g: Grid)
    requires g == [[0, -1, 0], [-1, 1, -1]]
    ensures WinCheck.Won(g, 2)
  {
    ConnectedWins(g, 2, 0, 1, WinCheck.Diagonal, -1);
  }

  lemma ShortDiagonalsApart(g: Grid)
    requires g == [[0, 0, 0], [-1, 1, -1]]
    ensures !WinCheck.Won(g, 2)
  {
    assert !WinCheck.RunInRows([[0, 0, 0], [-1, 1, -1]], 2, 0);
    ScanNotWon(g, 2);
  }

  /** On a 3 x 3 board at threshold 3 the full anti-diagonal wins; without
      its top cell nothing does. */
  lemma AntiDiagonalExamples(b1: Boards.Board, b2: Boards.Board)
    requires b1.grid == [[1, 0, -1], [-1, -1, 1], [-1, -1, 1]] && b1.winAt == 3
    requires b2.grid == [[1, 0, 0], [-1, -1, 1], [-1, -1, 1]] && b2.winAt == 3
    ensures Boards.Won(b1) && !Boards.Won(b2)
  {
    FullAntiDiagonal(b1.grid);
    BrokenAntiDiagonal(b2.grid);
  }

  lemma FullAntiDiagonal(g: Grid)
    requires g == [[1, 0, -1], [-1, -1, 1], [-1, -1, 1]]
    ensures WinCheck.Won(g, 3)
  {
    ConnectedWins(g, 3, 0, 2, WinCheck.AntiDiagonal, -1);
  }

  lemma BrokenAntiDiagonal(g: Grid)
    requires g == [[1, 0, 0], [-1, -1, 1], [-1, -1, 1]]
    ensures !WinCheck.Won(g, 3)
  {
    assert !WinCheck.RunInRows([[1, 0, 0], [-1, -1, 1], [-1, -1, 1]], 3, 0);
    ScanNotWon(g, 3);
  }

  /** Full 6 x 7 grids put on a board configured as 2 x 2 with threshold 2:
      each holds an equal pair in a line, so it is won and therefore not
      drawn; negating the second one keeps it won. */
  lemma RegressionExamples(a: Boards.Board, b: Boards.Board, nb: Boards.Board, c: Boards.Board)
    requires a.grid == Positions.RegressionA && a.winAt == 2
    requires b.grid == Positions.RegressionB && b.winAt == 2
    requires nb.grid == Negate(Positions.RegressionB) && nb.winAt == 2
    requires c.grid == Positions.RegressionC && c.winAt == 2
    ensures Boards.Won(a) && !Boards.Drawn(a)
    ensures Boards.Won(b) && !Boards.Drawn(b)
    ensures Boards.Won(nb) && !Boards.Drawn(nb)
    ensures Boards.Won(c) && !Boards.Drawn(c)
  {
    RegressionAWon(a.grid);
    RegressionBWon(b.grid);
    WinCheck.WonNegate(b.grid, 2);
    RegressionCWon(c.grid);
  }

  lemma RegressionAWon(g: Grid)
    requires g == Positions.RegressionA
    ensures WinCheck.Won(g, 2)
  {
    Positions.RegressionATokens();
    ConnectedWins(g, 2, 0, 0, WinCheck.Horizontal, 1);
  }

  lemma RegressionBWon(g: Grid)
    requires g == Positions.RegressionB
    ensures WinCheck.Won(g, 2)
  {
    Positions.RegressionBTokens();
    ConnectedWins(g, 2, 0, 0, WinCheck.Diagonal, 1);
  }

  lemma RegressionCWon(g: Grid)
    requires g == Positions.RegressionC
    ensures WinCheck.Won(g, 2)
  {
    Positions.RegressionCTokens();
    ConnectedWins(g, 2, 0, 0, WinCheck.Horizontal, -1);
  }

  /** The position with three open cells in column 4 has no run of four and
      is not full, so it is neither won nor drawn. */
  lemma BrokenOpenUndecided(b: Boards.Board)
    requires b.grid == Positions.BrokenOpen && b.winAt == 4
    ensures !Boards.Won(b) && !Boards.Drawn(b)
  {
    Positions.BrokenOpenNotWon(b.grid);
    assert InGrid(b.grid, 0, 4) && b.grid[0][4] == 0;
  }

  /** A -1 at (2, 4) completes the anti-diagonal from there down to (5, 1). */
  lemma BrokenAntiWon(b: Boards.Board)
    requires b.grid == Positions.BrokenAnti && b.winAt == 4
    ensures Boards.Won(b) && !Boards.Drawn(b)
  {
    Positions.BrokenAntiTokens();
    ConnectedWins(b.grid, 4, 2, 4, WinCheck.AntiDiagonal, -1);
  }

  /** A +1 at (2, 4) completes the diagonal from (0, 2) down to (3, 5). */
  lemma BrokenDiagWon(b: Boards.Board)
    requires b.grid == Positions.BrokenDiag && b.winAt == 4
    ensures Boards.Won(b) && !Boards.Drawn(b)
  {
    Positions.BrokenDiagTokens();
    ConnectedWins(b.grid, 4, 0, 2, WinCheck.Diagonal, 1);
  }

  // ----- more games of the environment ---------------------------------------

  /** The default environment, before any trainer is registered. */
  const Fresh: Env := Init(6, 7).value

  lemma FreshIsEmpty()
    ensures Fresh.board.winAt == 4 && Fresh.cols == 7 && Fresh.ngame == 0 && Fresh.nwrongMoves == 0
    ensures !Fresh.done && Fresh.trainer.None? && Consistent(Fresh)
    ensures |State(Fresh)| == 6 && Width(State(Fresh)) == 7
  {
  }

  /** The actions of the default environment are exactly the columns 0 to 6. */
  lemma ActionSpaceExample(a: int)
    ensures InActionSpace(Fresh, a) <==> 0 <= a < 7
  {
    FreshIsEmpty();
  }

  /** Resetting the new environment starts game 1 with no wrong moves. */
  lemma ResetExample()
    ensures Reset(Fresh).ngame == 1 && Reset(Fresh).nwrongMoves == 0
  {
    FreshIsEmpty();
  }

  lemma DrawCells(g: Grid)
    requires g == Positions.DrawBefore
    ensures g[0 := g[0][6 := 1]] == Positions.DrawAfter
    ensures g[0 := g[0][6 := -1]] == Positions.TrainerDrawAfter
  {
    assert Positions.DrawBefore[0][6 := 1] == Positions.DrawAfter[0];
    assert Positions.DrawBefore[0 := Positions.DrawAfter[0]] == Positions.DrawAfter;
    assert Positions.DrawBefore[0][6 := -1] == Positions.TrainerDrawAfter[0];
    assert Positions.DrawBefore[0 := Positions.TrainerDrawAfter[0]] == Positions.TrainerDrawAfter;
  }

  /** In `DrawBefore` only the top of column 6 is open: the learner's +1
      lands there and fills the board without a run of four. */
  lemma LearnerDrawingDrop(b: Boards.Board)
    requires b.grid == Positions.DrawBefore && b.winAt == 4
    ensures Boards.IsOpen(b, 6)
    ensures Boards.AddPiece(b, 6, 1).0.grid == Positions.DrawAfter
    ensures !Boards.Won(Boards.AddPiece(b, 6, 1).0) && Boards.Drawn(Boards.AddPiece(b, 6, 1).0)
  {
    Positions.DrawBeforeOneEmpty();
    DropWrites(b, 6, 1, 0);
    DrawCells(b.grid);
    Positions.DrawAfterNotWon(Boards.AddPiece(b, 6, 1).0.grid);
    Positions.DrawAfterFull();
  }

  /** A learner move that fills the board without a win ends the episode as
      drawn with the draw reward; the trainer is not consulted. */
  lemma StepDrawExample()
    ensures
      var e := Trained.(board := Trained.board.(grid := Positions.DrawBefore));
      && Step(e, 6).Success?
      && State(Step(e, 6).value) == Positions.DrawAfter
      && Step(e, 6).value.reward == DrawnValue
      && Step(e, 6).value.info == Some(Drawn)
      && Step(e, 6).value.nwrongMoves == 0
      && Step(e, 6).value.done
  {
    TrainedIsFresh();
    StepDrawOn(Trained.(board := Trained.board.(grid := Positions.DrawBefore)));
  }

  lemma StepDrawOn(e: Env)
    requires !e.done && e.cols == 7 && e.nwrongMoves == 0
    requires e.board.grid == Positions.DrawBefore && e.board.winAt == 4
    ensures Step(e, 6).Success?
    ensures State(Step(e, 6).value) == Positions.DrawAfter
    ensures Step(e, 6).value.reward == DrawnValue && Step(e, 6).value.info == Some(Drawn)
    ensures Step(e, 6).value.nwrongMoves == 0 && Step(e, 6).value.done
  {
    LearnerDrawingDrop(e.board);
    DrawingStep(e, 6);
  }

  /** A legal learner move that fills the board without a win ends the step. */
  lemma DrawingStep(e: Env, action: int)
    requires !e.done && InActionSpace(e, action) && Boards.IsOpen(e.board, action)
    requires !Boards.Won(Boards.AddPiece(e.board, action, 1).0) && Boards.Drawn(Boards.AddPiece(e.board, action, 1).0)
    ensures Step(e, action) == Success(e.(board := Boards.AddPiece(e.board, action, 1).0, reward := DrawnValue,
                                          done := true, info := Some(Drawn)))
  {
  }

  /** A trainer that names one of the open columns of the grid it is shown,
      as the random player does. */
  predicate PicksOpen(p: Players.Player, g: Grid) {
    p.Policy? && p.choose(Negate(g)) in Players.GetAvailableCols(Negate(g))
  }

  /** When `(r, c)` is the only empty cell, `c` is the only open column of
      the trainer's view. */
  lemma OnlyOpenColumn(g: Grid, r: int, c: int, x: int)
    requires InGrid(g, r, c)
    requires forall i, j :: InGrid(g, i, j) && (i != r || j != c) ==> g[i][j] != 0
    requires x in Players.GetAvailableCols(Negate(g))
    ensures x == c
  {
    var n := Negate(g);
    assert 0 <= x < Width(n) && HasEmpty(n, x);
    var i :| 0 <= i < |n| && n[i][x] == 0;
    assert InGrid(g, i, x);
  }

  /** The trainer's -1 lands on top of column 6 of `DrawBefore` and fills
      the board without a run of four. */
  lemma TrainerDrawingDrop(b: Boards.Board)
    requires b.grid == Positions.DrawBefore && b.winAt == 4
    ensures Boards.IsOpen(b, 6)
    ensures Boards.AddPiece(b, 6, -1).0.grid == Positions.TrainerDrawAfter
    ensures !Boards.Won(Boards.AddPiece(b, 6, -1).0) && Boards.Drawn(Boards.AddPiece(b, 6, -1).0)
  {
    Positions.DrawBeforeOneEmpty();
    DropWrites(b, 6, -1, 0);
    DrawCells(b.grid);
    Positions.TrainerDrawAfterNotWon(Boards.AddPiece(b, 6, -1).0.grid);
    Positions.TrainerDrawAfterFull();
  }

  /** A trainer move that fills the board without a win ends the episode as
      drawn with the draw reward. */
  lemma TrainerDrawExample(p: Players.Player)
    requires PicksOpen(p, Positions.DrawBefore)
    ensures
      var e := RegisterTrainer(Fresh, p).(board := Fresh.board.(grid := Positions.DrawBefore));
      && TrainerStep(e).Success?
      && State(TrainerStep(e).value) == Positions.TrainerDrawAfter
      && TrainerStep(e).value.reward == DrawnValue
      && TrainerStep(e).value.info == Some(Drawn)
      && TrainerStep(e).value.done
  {
    FreshIsEmpty();
    var e := RegisterTrainer(Fresh, p).(board := Fresh.board.(grid := Positions.DrawBefore));
    Positions.DrawBeforeOneEmpty();
    OnlyOpenColumn(Positions.DrawBefore, 0, 6, p.choose(Negate(Positions.DrawBefore)));
    assert StateTrainer(e) == Negate(Positions.DrawBefore);
    assert TrainerStep(e) == Act(e, 6, true);
    TrainerDrawingDrop(e.board);
  }

  /** In `TrainerWinsBefore` the trainer's -1 lands on top of column 6 and
      completes the anti-diagonal from there down to (3, 3). */
  lemma TrainerWinningDrop(b: Boards.Board)
    requires b.grid == Positions.TrainerWinsBefore && b.winAt == 4
    ensures Boards.IsOpen(b, 6)
    ensures Boards.AddPiece(b, 6, -1).0.grid == Positions.TrainerWinsAfter
    ensures Boards.Won(Boards.AddPiece(b, 6, -1).0)
  {
    Positions.TrainerWinsBeforeOneEmpty();
    DropWrites(b, 6, -1, 0);
    TrainerWinsCells(b.grid);
    TrainerWinsAfterWon(Boards.AddPiece(b, 6, -1).0.grid);
  }

  lemma TrainerWinsAfterWon(g: Grid)
    requires g == Positions.TrainerWinsAfter
    ensures WinCheck.Won(g, 4)
  {
    Positions.TrainerWinsAfterTokens();
    ConnectedWins(g, 4, 0, 6, WinCheck.AntiDiagonal, -1);
  }

  lemma TrainerWinsCells(g: Grid)
    requires g == Positions.TrainerWinsBefore
    ensures g[0 := g[0][6 := -1]] == Positions.TrainerWinsAfter
  {
    assert Positions.TrainerWinsBefore[0][6 := -1] == Positions.TrainerWinsAfter[0];
    assert Positions.TrainerWinsBefore[0 := Positions.TrainerWinsAfter[0]] == Positions.TrainerWinsAfter;
  }

  /** A winning trainer move ends the episode as lost with the loss reward. */
  lemma TrainerWinExample(p: Players.Player)
    requires PicksOpen(p, Positions.TrainerWinsBefore)
    ensures
      var e := RegisterTrainer(Fresh, p).(board := Fresh.board.(grid := Positions.TrainerWinsBefore));
      && TrainerStep(e).Success?
      && State(TrainerStep(e).value) == Positions.TrainerWinsAfter
      && TrainerStep(e).value.reward == LostValue
      && TrainerStep(e).value.info == Some(Lost)
      && TrainerStep(e).value.done
  {
    FreshIsEmpty();
    var e := RegisterTrainer(Fresh, p).(board := Fresh.board.(grid := Positions.TrainerWinsBefore));
    Positions.TrainerWinsBeforeOneEmpty();
    OnlyOpenColumn(Positions.TrainerWinsBefore, 0, 6, p.choose(Negate(Positions.TrainerWinsBefore)));
    assert StateTrainer(e) == Negate(Positions.TrainerWinsBefore);
    assert TrainerStep(e) == Act(e, 6, true);
    TrainerWinningDrop(e.board);
  }

  /** The learner's +1 at the bottom of column 1 decides nothing. */
  lemma LostLearnerDrop(b: Boards.Board)
    requires b.grid == Positions.LostBefore && b.winAt == 4
    ensures Boards.IsOpen(b, 1)
    ensures Boards.AddPiece(b, 1, 1).0.grid == Positions.LostMiddle
    ensures !Boards.Won(Boards.AddPiece(b, 1, 1).0) && !Boards.Drawn(Boards.AddPiece(b, 1, 1).0)
  {
    DropWrites(b, 1, 1, 5);
    LostCells(b.grid);
    var g := Boards.AddPiece(b, 1, 1).0.grid;
    Positions.LostMiddleNotWon(g);
    assert InGrid(g, 0, 0) && g[0][0] == 0;
  }

  lemma LostCells(g: Grid)
    requires g == Positions.LostBefore
    ensures g[5 := g[5][1 := 1]] == Positions.LostMiddle
    ensures Positions.LostMiddle[0 := Positions.LostMiddle[0][0 := -1]] == Positions.LostAfter
  {
    assert Positions.LostBefore[5][1 := 1] == Positions.LostMiddle[5];
    assert Positions.LostBefore[5 := Positions.LostMiddle[5]] == Positions.LostMiddle;
    assert Positions.LostMiddle[0][0 := -1] == Positions.LostAfter[0];
    assert Positions.LostMiddle[0 := Positions.LostAfter[0]] == Positions.LostAfter;
  }

  /** The trainer's -1 on top of column 0 makes four -1 in that column. */
  lemma LostTrainerDrop(b: Boards.Board)
    requires b.grid == Positions.LostMiddle && b.winAt == 4
    ensures Boards.IsOpen(b, 0)
    ensures Boards.AddPiece(b, 0, -1).0.grid == Positions.LostAfter
    ensures Boards.Won(Boards.AddPiece(b, 0, -1).0)
  {
    var g := b.grid;
    assert g[1][0] == -1 && g[2][0] == -1 && g[3][0] == -1 && g[4][0] == 1 && g[5][0] == 1;
    DropWrites(b, 0, -1, 0);
    LostCells(Positions.LostBefore);
    LostAfterWon(Boards.AddPiece(b, 0, -1).0.grid);
  }

  lemma LostAfterWon(g: Grid)
    requires g == Positions.LostAfter
    ensures WinCheck.Won(g, 4)
  {
    Positions.LostAfterTokens();
    ConnectedWins(g, 4, 0, 0, WinCheck.Vertical, -1);
  }

  /** The learner's move decides nothing, and the sequential trainer's reply
      in column 0 wins for it: the episode ends as lost with the loss reward. */
  lemma StepLostExample()
    ensures
      var e := Trained.(board := Trained.board.(grid := Positions.LostBefore));
      && Step(e, 1).Success?
      && State(Step(e, 1).value) == Positions.LostAfter
      && Step(e, 1).value.reward == LostValue
      && Step(e, 1).value.info == Some(Lost)
      && Step(e, 1).value.nwrongMoves == 0
      && Step(e, 1).value.done
  {
    TrainedIsFresh();
    var e := Trained.(board := Trained.board.(grid := Positions.LostBefore));
    LostLearnerDrop(e.board);
    var b1 := Boards.AddPiece(e.board, 1, 1).0;
    var e1 := e.(board := b1, reward := 0.0, done := false, info := None);
    assert Step(e, 1) == TrainerStep(e1);
    SequentialOpensAtZero(State(e1));
    var e2 := e1.(trainer := Some(Players.Sequential("TST", 1)));
    assert TrainerStep(e1) == Act(e2, 0, true);
    LostTrainerDrop(b1);
  }
}
