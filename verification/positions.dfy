/** Positions on the default 6 x 7 board that the repository's tests play
    through, and the certificates that some of them are not won at the usual
    threshold of 4.

    A certificate evaluates the cell-by-cell scan `WinCheck.RunInRows` on the
    constant, one row per lemma so that each evaluation stays small, and
    `WinCheck.WonIffScan` turns the outcome into a statement about `Won`. */
module Positions {
  import opened Grids
  import WinCheck

  /** One cell short of a draw: only the top of column 6 is empty (the step-draw and trainer-draw games). */
  const DrawBefore: Grid := [
    [ 1,  1, -1, -1,  1,  1,  0],
    [-1, -1,  1,  1, -1, -1,  1],
    [ 1,  1, -1, -1,  1,  1, -1],
    [-1, -1,  1,  1, -1, -1,  1],
    [ 1,  1, -1, -1,  1,  1, -1],
    [-1, -1,  1,  1, -1, -1,  1]]

  /** `DrawBefore` with the learner's +1 on top of column 6. */
  const DrawAfter: Grid := [
    [ 1,  1, -1, -1,  1,  1,  1],
    [-1, -1,  1,  1, -1, -1,  1],
    [ 1,  1, -1, -1,  1,  1, -1],
    [-1, -1,  1,  1, -1, -1,  1],
    [ 1,  1, -1, -1,  1,  1, -1],
    [-1, -1,  1,  1, -1, -1,  1]]

  /** `DrawBefore` with the trainer's -1 on top of column 6. */
  const TrainerDrawAfter: Grid := [
    [ 1,  1, -1, -1,  1,  1, -1],
    [-1, -1,  1,  1, -1, -1,  1],
    [ 1,  1, -1, -1,  1,  1, -1],
    [-1, -1,  1,  1, -1, -1,  1],
    [ 1,  1, -1, -1,  1,  1, -1],
    [-1, -1,  1,  1, -1, -1,  1]]

  /** Only the top of column 6 is empty, and a -1 there completes an anti-diagonal. */
  const TrainerWinsBefore: Grid := [
    [ 1,  1, -1, -1,  1,  1,  0],
    [-1, -1,  1,  1, -1, -1,  1],
    [ 1,  1, -1, -1, -1,  1, -1],
    [-1, -1,  1, -1, -1, -1,  1],
    [ 1,  1,  1, -1,  1,  1, -1],
    [-1, -1,  1,  1, -1, -1,  1]]

  /** `TrainerWinsBefore` with the trainer's -1 on top of column 6. */
  const TrainerWinsAfter: Grid := [
    [ 1,  1, -1, -1,  1,  1, -1],
    [-1, -1,  1,  1, -1, -1,  1],
    [ 1,  1, -1, -1, -1,  1, -1],
    [-1, -1,  1, -1, -1, -1,  1],
    [ 1,  1,  1, -1,  1,  1, -1],
    [-1, -1,  1,  1, -1, -1,  1]]

  /** Three -1 stacked in column 0 under an empty top cell (the learner-loses game). */
  const LostBefore: Grid := [
    [ 0,  0,  0,  0,  0,  0,  0],
    [-1,  0,  0,  0,  0,  0,  0],
    [-1,  0,  0,  0,  0,  0,  0],
    [-1,  0,  0,  0,  0,  0,  0],
    [ 1,  0,  0,  0,  0,  0,  0],
    [ 1,  0,  0,  0,  0,  0,  0]]

  /** `LostBefore` after the learner's +1 at the bottom of column 1. */
  const LostMiddle: Grid := [
    [ 0,  0,  0,  0,  0,  0,  0],
    [-1,  0,  0,  0,  0,  0,  0],
    [-1,  0,  0,  0,  0,  0,  0],
    [-1,  0,  0,  0,  0,  0,  0],
    [ 1,  0,  0,  0,  0,  0,  0],
    [ 1,  1,  0,  0,  0,  0,  0]]

  /** `LostMiddle` after the trainer's -1 on top of column 0: four -1 in a column. */
  const LostAfter: Grid := [
    [-1,  0,  0,  0,  0,  0,  0],
    [-1,  0,  0,  0,  0,  0,  0],
    [-1,  0,  0,  0,  0,  0,  0],
    [-1,  0,  0,  0,  0,  0,  0],
    [ 1,  0,  0,  0,  0,  0,  0],
    [ 1,  1,  0,  0,  0,  0,  0]]

  /** A position with column 4 open at the top three cells and no run of four. */
  const BrokenOpen: Grid := [
    [-1, -1,  1, -1,  0, -1,  1],
    [ 1,  1, -1,  1,  0,  1, -1],
    [ 1, -1,  1,  1,  0, -1, -1],
    [ 1,  1,  1, -1,  1,  1, -1],
    [-1, -1, -1,  1, -1,  1,  1],
    [-1, -1,  1, -1, -1,  1, -1]]

  /** `BrokenOpen` with a -1 at (2, 4), completing an anti-diagonal of -1. */
  const BrokenAnti: Grid := [
    [-1, -1,  1, -1,  0, -1,  1],
    [ 1,  1, -1,  1,  0,  1, -1],
    [ 1, -1,  1,  1, -1, -1, -1],
    [ 1,  1,  1, -1,  1,  1, -1],
    [-1, -1, -1,  1, -1,  1,  1],
    [-1, -1,  1, -1, -1,  1, -1]]

  /** `BrokenOpen` with a +1 at (2, 4), completing a diagonal of +1. */
  const BrokenDiag: Grid := [
    [-1, -1,  1, -1,  0, -1,  1],
    [ 1,  1, -1,  1,  0,  1, -1],
    [ 1, -1,  1,  1,  1, -1, -1],
    [ 1,  1,  1, -1,  1,  1, -1],
    [-1, -1, -1,  1, -1,  1,  1],
    [-1, -1,  1, -1, -1,  1, -1]]

  /** Full positions that hold a pair of equal tokens in a line, so a threshold of 2 is reached. */
  const RegressionA: Grid := [
    [ 1,  1, -1,  1, -1,  1,  1],
    [-1, -1,  1, -1,  1, -1, -1],
    [ 1,  1, -1,  1, -1,  1, -1],
    [-1,  1,  1,  1,  1,  1, -1],
    [ 1, -1, -1,  1,  1, -1,  1],
    [-1,  1, -1, -1,  1, -1, -1]]

  const RegressionB: Grid := [
    [ 1, -1,  1,  1, -1,  1,  1],
    [-1,  1, -1, -1, -1,  1,  1],
    [ 1, -1,  1,  1, -1, -1, -1],
    [ 1,  1, -1, -1,  1,  1, -1],
    [-1,  1, -1, -1,  1, -1,  1],
    [ 1, -1, -1, -1,  1, -1,  1]]

  const RegressionC: Grid := [
    [-1, -1,  1, -1,  1,  1,  1],
    [ 1, -1,  1,  1, -1,  1,  1],
    [-1,  1,  1, -1,  1,  1,  1],
    [ 1,  1, -1, -1,  1, -1, -1],
    [-1, -1,  1, -1, -1,  1, -1],
    [ 1, -1, -1,  1, -1,  1, -1]]

  /** No run of four in `DrawAfter`. */
  lemma DrawAfterNotWon(g: Grid)
    requires g == DrawAfter
    ensures !WinCheck.Won(g, 4)
  {
    DrawAfterNoRun();
    DrawAfterTokens();
    WinCheck.WonIffScan(g, 4);
  }

  lemma DrawAfterTokens()
    ensures IsTokens(DrawAfter)
  {
    var g := DrawAfter;
    forall i, j | InGrid(g, i, j)
      ensures -1 <= g[i][j] <= 1
    {
      assert g[i] in g;
    }
  }

  lemma DrawAfterNoRun()
    ensures !WinCheck.RunInRows(DrawAfter, 4, 0)
  {
    DrawAfterRow0();
    DrawAfterRow1();
    DrawAfterRow2();
    DrawAfterRow3();
    DrawAfterRow4();
    DrawAfterRow5();
  }

  lemma DrawAfterRow0()
    ensures !WinCheck.RunInRow(DrawAfter, 4, 0, 0)
  {
  }

  lemma DrawAfterRow1()
    ensures !WinCheck.RunInRow(DrawAfter, 4, 1, 0)
  {
  }

  lemma DrawAfterRow2()
    ensures !WinCheck.RunInRow(DrawAfter, 4, 2, 0)
  {
  }

  lemma DrawAfterRow3()
    ensures !WinCheck.RunInRow(DrawAfter, 4, 3, 0)
  {
  }

  lemma DrawAfterRow4()
    ensures !WinCheck.RunInRow(DrawAfter, 4, 4, 0)
  {
  }

  lemma DrawAfterRow5()
    ensures !WinCheck.RunInRow(DrawAfter, 4, 5, 0)
  {
  }

  /** No run of four in `TrainerDrawAfter`. */
  lemma TrainerDrawAfterNotWon(g: Grid)
    requires g == TrainerDrawAfter
    ensures !WinCheck.Won(g, 4)
  {
    TrainerDrawAfterNoRun();
    TrainerDrawAfterTokens();
    WinCheck.WonIffScan(g, 4);
  }

  lemma TrainerDrawAfterTokens()
    ensures IsTokens(TrainerDrawAfter)
  {
    var g := TrainerDrawAfter;
    forall i, j | InGrid(g, i, j)
      ensures -1 <= g[i][j] <= 1
    {
      assert g[i] in g;
    }
  }

  lemma TrainerDrawAfterNoRun()
    ensures !WinCheck.RunInRows(TrainerDrawAfter, 4, 0)
  {
    TrainerDrawAfterRow0();
    TrainerDrawAfterRow1();
    TrainerDrawAfterRow2();
    TrainerDrawAfterRow3();
    TrainerDrawAfterRow4();
    TrainerDrawAfterRow5();
  }

  lemma TrainerDrawAfterRow0()
    ensures !WinCheck.RunInRow(TrainerDrawAfter, 4, 0, 0)
  {
  }

  lemma TrainerDrawAfterRow1()
    ensures !WinCheck.RunInRow(TrainerDrawAfter, 4, 1, 0)
  {
  }

  lemma TrainerDrawAfterRow2()
    ensures !WinCheck.RunInRow(TrainerDrawAfter, 4, 2, 0)
  {
  }

  lemma TrainerDrawAfterRow3()
    ensures !WinCheck.RunInRow(TrainerDrawAfter, 4, 3, 0)
  {
  }

  lemma TrainerDrawAfterRow4()
    ensures !WinCheck.RunInRow(TrainerDrawAfter, 4, 4, 0)
  {
  }

  lemma TrainerDrawAfterRow5()
    ensures !WinCheck.RunInRow(TrainerDrawAfter, 4, 5, 0)
  {
  }

  /** No run of four in `LostMiddle`. */
  lemma LostMiddleNotWon(g: Grid)
    requires g == LostMiddle
    ensures !WinCheck.Won(g, 4)
  {
    LostMiddleNoRun();
    LostMiddleTokens();
    WinCheck.WonIffScan(g, 4);
  }

  lemma LostMiddleTokens()
    ensures IsTokens(LostMiddle)
  {
    var g := LostMiddle;
    forall i, j | InGrid(g, i, j)
      ensures -1 <= g[i][j] <= 1
    {
      assert g[i] in g;
    }
  }

  lemma LostMiddleNoRun()
    ensures !WinCheck.RunInRows(LostMiddle, 4, 0)
  {
    LostMiddleRow0();
    LostMiddleRow1();
    LostMiddleRow2();
    LostMiddleRow3();
    LostMiddleRow4();
    LostMiddleRow5();
  }

  lemma LostMiddleRow0()
    ensures !WinCheck.RunInRow(LostMiddle, 4, 0, 0)
  {
  }

  lemma LostMiddleRow1()
    ensures !WinCheck.RunInRow(LostMiddle, 4, 1, 0)
  {
  }

  lemma LostMiddleRow2()
    ensures !WinCheck.RunInRow(LostMiddle, 4, 2, 0)
  {
  }

  lemma LostMiddleRow3()
    ensures !WinCheck.RunInRow(LostMiddle, 4, 3, 0)
  {
  }

  lemma LostMiddleRow4()
    ensures !WinCheck.RunInRow(LostMiddle, 4, 4, 0)
  {
  }

  lemma LostMiddleRow5()
    ensures !WinCheck.RunInRow(LostMiddle, 4, 5, 0)
  {
  }

  /** No run of four in `BrokenOpen`. */
  lemma BrokenOpenNotWon(g: Grid)
    requires g == BrokenOpen
    ensures !WinCheck.Won(g, 4)
  {
    BrokenOpenNoRun();
    BrokenOpenTokens();
    WinCheck.WonIffScan(g, 4);
  }

  lemma BrokenOpenTokens()
    ensures IsTokens(BrokenOpen)
  {
    var g := BrokenOpen;
    forall i, j | InGrid(g, i, j)
      ensures -1 <= g[i][j] <= 1
    {
      assert g[i] in g;
    }
  }

  lemma BrokenOpenNoRun()
    ensures !WinCheck.RunInRows(BrokenOpen, 4, 0)
  {
    BrokenOpenRow0();
    BrokenOpenRow1();
    BrokenOpenRow2();
    BrokenOpenRow3();
    BrokenOpenRow4();
    BrokenOpenRow5();
  }

  lemma BrokenOpenRow0()
    ensures !WinCheck.RunInRow(BrokenOpen, 4, 0, 0)
  {
  }

  lemma BrokenOpenRow1()
    ensures !WinCheck.RunInRow(BrokenOpen, 4, 1, 0)
  {
  }

  lemma BrokenOpenRow2()
    ensures !WinCheck.RunInRow(BrokenOpen, 4, 2, 0)
  {
  }

  lemma BrokenOpenRow3()
    ensures !WinCheck.RunInRow(BrokenOpen, 4, 3, 0)
  {
  }

  lemma BrokenOpenRow4()
    ensures !WinCheck.RunInRow(BrokenOpen, 4, 4, 0)
  {
  }

  lemma BrokenOpenRow5()
    ensures !WinCheck.RunInRow(BrokenOpen, 4, 5, 0)
  {
  }

  lemma TrainerWinsAfterTokens()
    ensures IsTokens(TrainerWinsAfter)
  {
    var g := TrainerWinsAfter;
    forall i, j | InGrid(g, i, j)
      ensures -1 <= g[i][j] <= 1
    {
      assert g[i] in g;
    }
  }

  lemma LostAfterTokens()
    ensures IsTokens(LostAfter)
  {
    var g := LostAfter;
    forall i, j | InGrid(g, i, j)
      ensures -1 <= g[i][j] <= 1
    {
      assert g[i] in g;
    }
  }

  lemma BrokenAntiTokens()
    ensures IsTokens(BrokenAnti)
  {
    var g := BrokenAnti;
    forall i, j | InGrid(g, i, j)
      ensures -1 <= g[i][j] <= 1
    {
      assert g[i] in g;
    }
  }

  lemma BrokenDiagTokens()
    ensures IsTokens(BrokenDiag)
  {
    var g := BrokenDiag;
    forall i, j | InGrid(g, i, j)
      ensures -1 <= g[i][j] <= 1
    {
      assert g[i] in g;
    }
  }

  lemma RegressionATokens()
    ensures IsTokens(RegressionA)
  {
    var g := RegressionA;
    forall i, j | InGrid(g, i, j)
      ensures -1 <= g[i][j] <= 1
    {
      assert g[i] in g;
    }
  }

  lemma RegressionBTokens()
    ensures IsTokens(RegressionB)
  {
    var g := RegressionB;
    forall i, j | InGrid(g, i, j)
      ensures -1 <= g[i][j] <= 1
    {
      assert g[i] in g;
    }
  }

  lemma RegressionCTokens()
    ensures IsTokens(RegressionC)
  {
    var g := RegressionC;
    forall i, j | InGrid(g, i, j)
      ensures -1 <= g[i][j] <= 1
    {
      assert g[i] in g;
    }
  }

  /** `(0, 6)` is the only empty cell of `DrawBefore`. */
  lemma DrawBeforeOneEmpty()
    ensures InGrid(DrawBefore, 0, 6) && DrawBefore[0][6] == 0
    ensures forall i, j :: InGrid(DrawBefore, i, j) && (i != 0 || j != 6) ==> DrawBefore[i][j] != 0
  {
    var g := DrawBefore;
    forall i, j | InGrid(g, i, j) && (i != 0 || j != 6)
      ensures g[i][j] != 0
    {
      assert g[i] in g;
    }
  }

  /** `(0, 6)` is the only empty cell of `TrainerWinsBefore`. */
  lemma TrainerWinsBeforeOneEmpty()
    ensures InGrid(TrainerWinsBefore, 0, 6) && TrainerWinsBefore[0][6] == 0
    ensures forall i, j :: InGrid(TrainerWinsBefore, i, j) && (i != 0 || j != 6) ==> TrainerWinsBefore[i][j] != 0
  {
    var g := TrainerWinsBefore;
    forall i, j | InGrid(g, i, j) && (i != 0 || j != 6)
      ensures g[i][j] != 0
    {
      assert g[i] in g;
    }
  }

  lemma DrawAfterFull()
    ensures forall i, j :: InGrid(DrawAfter, i, j) ==> DrawAfter[i][j] != 0
  {
    var g := DrawAfter;
    forall i, j | InGrid(g, i, j)
      ensures g[i][j] != 0
    {
      assert g[i] in g;
    }
  }

  lemma TrainerDrawAfterFull()
    ensures forall i, j :: InGrid(TrainerDrawAfter, i, j) ==> TrainerDrawAfter[i][j] != 0
  {
    var g := TrainerDrawAfter;
    forall i, j | InGrid(g, i, j)
      ensures g[i][j] != 0
    {
      assert g[i] in g;
    }
  }
}
