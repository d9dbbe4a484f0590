/** Properties of the environment that relate several operations or hold
    across a whole step. */
module EnvProperties {
  import opened Wrappers
  import opened Grids
  import Boards
  import Players
  import opened FourInRowEnv

  /** `g2` is `g` with exactly two more pieces: a +1 dropped into column `a`
      and a -1 dropped into column `t`, each into a cell that was empty. */
  ghost predicate TwoNewPieces(g: Grid, g2: Grid, a: int, t: int) {
    && SameShape(g2, g)
    && exists r1, r2 ::
      && InGrid(g, r1, a) && InGrid(g, r2, t) && (r1 != r2 || a != t)
      && g[r1][a] == 0 && g[r2][t] == 0
      && g2[r1][a] == 1 && g2[r2][t] == -1
      && forall i, j :: InGrid(g, i, j) && (i != r1 || j != a) && (i != r2 || j != t) ==> g2[i][j] == g[i][j]
  }

  /** Two placements in a row, +1 into column `a` then -1 into column `t`,
      add exactly those two pieces. */
  lemma TwoPlacements(b: Boards.Board, a: int, t: int)
    requires Boards.IsOpen(b, a) && Boards.IsOpen(Boards.AddPiece(b, a, 1).0, t)
    ensures TwoNewPieces(b.grid, Boards.AddPiece(Boards.AddPiece(b, a, 1).0, t, -1).0.grid, a, t)
    ensures Boards.AddPiece(Boards.AddPiece(b, a, 1).0, t, -1).0.nmove == b.nmove + 2
  {
    var b1 := Boards.AddPiece(b, a, 1).0;
    var b2 := Boards.AddPiece(b1, t, -1).0;
    var r1 := Boards.LowestEmpty(b.grid, a);
    var r2 := Boards.LowestEmpty(b1.grid, t);
    assert InGrid(b.grid, r2, t);
    assert b1.grid[r1][a] == 1;
    assert b2.grid[r1][a] == 1;
  }

  /** The state a continuing step ends in: both half-moves were legal and
      neither decided the game. */
  lemma ContinuingStepShape(e: Env, action: int) returns (t: int)
    requires !e.done && Step(e, action).Success?
    requires Step(e, action).value.info.None?
    ensures Boards.IsOpen(e.board, action)
    ensures Boards.IsOpen(Boards.AddPiece(e.board, action, 1).0, t)
    ensures Step(e, action).value.board == Boards.AddPiece(Boards.AddPiece(e.board, action, 1).0, t, -1).0
    ensures Step(e, action).value.reward == 0.0 && !Step(e, action).value.done
    ensures Step(e, action).value.nwrongMoves == e.nwrongMoves
  {
    assert InActionSpace(e, action) && Boards.IsOpen(e.board, action);
    var b1 := Boards.AddPiece(e.board, action, 1).0;
    var e1 := e.(board := b1, reward := 0.0, done := false, info := None);
    assert Step(e, action) == TrainerStep(e1);
    var choice := Players.GetAction(e1.trainer.value, Negate(b1.grid));
    t := choice.value.0;
    assert InActionSpace(e1, t) && Boards.IsOpen(b1, t);
  }

  /** A step that neither ends the episode nor is a wrong move leaves a zero
      reward and no outcome tag, and adds exactly one learner piece and one
      trainer piece to the board. */
  lemma StepContinuingAddsTwoPieces(e: Env, action: int)
    requires !e.done
    ensures Step(e, action).Success? && Step(e, action).value.info.None? ==>
      && Step(e, action).value.reward == 0.0 && !Step(e, action).value.done
      && Step(e, action).value.nwrongMoves == e.nwrongMoves
      && Step(e, action).value.board.nmove == e.board.nmove + 2
      && exists t :: TwoNewPieces(State(e), State(Step(e, action).value), action, t)
  {
    if Step(e, action).Success? && Step(e, action).value.info.None? {
      ContinuingTwoPieces(e, action);
    }
  }

  lemma ContinuingTwoPieces(e: Env, action: int)
    requires !e.done && Step(e, action).Success?
    requires Step(e, action).value.info.None?
    ensures Step(e, action).value.reward == 0.0 && !Step(e, action).value.done
    ensures Step(e, action).value.nwrongMoves == e.nwrongMoves
    ensures Step(e, action).value.board.nmove == e.board.nmove + 2
    ensures exists t :: TwoNewPieces(State(e), State(Step(e, action).value), action, t)
  {
    var t := ContinuingStepShape(e, action);
    TwoPlacements(e.board, action, t);
    var r := Step(e, action).value;
    assert State(r) == Boards.AddPiece(Boards.AddPiece(e.board, action, 1).0, t, -1).0.grid;
    assert TwoNewPieces(State(e), State(r), action, t);
  }

  /** Once the learner's move is legal and decides nothing, the trainer's
      answer is computed on the negated grid and played as -1: a win for it
      is a loss for the learner, a full board is a draw, otherwise the game
      goes on with a zero reward. A trainer naming a column that is not open
      is a fault, never a recoverable outcome. */
  lemma StepTrainerHalfMove(e: Env, action: int)
    requires !e.done && InActionSpace(e, action) && Boards.IsOpen(e.board, action)
    requires e.trainer.Some?
    ensures
      var b1 := Boards.AddPiece(e.board, action, 1).0;
      var choice := Players.GetAction(e.trainer.value, Negate(b1.grid));
      !Boards.Won(b1) && !Boards.Drawn(b1) ==>
      && (choice.None? ==> Step(e, action) == Failure(TrainerCrashed))
      && (choice.Some? ==>
            var t := choice.value.0;
            var p := choice.value.1;
            && (!InActionSpace(e, t) ==> Step(e, action) == Failure(ActionOutsideSpace))
            && (InActionSpace(e, t) && !Boards.IsOpen(b1, t) ==> Step(e, action) == Failure(TrainerWrongMove))
            && (InActionSpace(e, t) && Boards.IsOpen(b1, t) ==>
                  var b2 := Boards.AddPiece(b1, t, -1).0;
                  && (Boards.Won(b2) ==>
                        Step(e, action) == Success(e.(board := b2, trainer := Some(p), reward := LostValue,
                                                      done := true, info := Some(Lost))))
                  && (!Boards.Won(b2) && Boards.Drawn(b2) ==>
                        Step(e, action) == Success(e.(board := b2, trainer := Some(p), reward := DrawnValue,
                                                      done := true, info := Some(Drawn))))
                  && (!Boards.Won(b2) && !Boards.Drawn(b2) ==>
                        Step(e, action) == Success(e.(board := b2, trainer := Some(p), reward := 0.0,
                                                      done := false, info := None)))))
  {
    var b1 := Boards.AddPiece(e.board, action, 1).0;
    if !Boards.Won(b1) && !Boards.Drawn(b1) {
      var e1 := e.(board := b1, reward := 0.0, done := false, info := None);
      assert Step(e, action) == TrainerStep(e1);
    }
  }

  lemma ActKeepsConsistent(e: Env, action: int, isTrainer: bool)
    requires Consistent(e) && !e.done
    requires Act(e, action, isTrainer).Success?
    ensures Consistent(Act(e, action, isTrainer).value)
  {
  }

  lemma TrainerStepKeepsConsistent(e: Env)
    requires Consistent(e) && TrainerStep(e).Success?
    ensures Consistent(TrainerStep(e).value)
  {
    if !e.done {
      var choice := Players.GetAction(e.trainer.value, Negate(State(e)));
      ActKeepsConsistent(e.(trainer := Some(choice.value.1)), choice.value.0, true);
    }
  }

  /** Every step keeps the reward in line with the outcome tag and `done`
      in line with a terminal tag. */
  lemma StepKeepsConsistent(e: Env, action: int)
    requires Consistent(e)
    ensures Step(e, action).Success? ==> Consistent(Step(e, action).value)
  {
    if Step(e, action).Success? {
      SuccessfulStepKeepsConsistent(e, action);
    }
  }

  lemma SuccessfulStepKeepsConsistent(e: Env, action: int)
    requires Consistent(e) && Step(e, action).Success?
    ensures Consistent(Step(e, action).value)
  {
    if !e.done && InActionSpace(e, action) && Boards.IsOpen(e.board, action) {
      var b := Boards.AddPiece(e.board, action, 1).0;
      if !Boards.Won(b) && !Boards.Drawn(b) {
        TrainerStepKeepsConsistent(e.(board := b, reward := 0.0, done := false, info := None));
      }
    }
  }

  /** A board whose cells are tokens and whose columns obey gravity. */
  ghost predicate WellFormed(b: Boards.Board) {
    IsTokens(b.grid) && Boards.Gravity(b.grid)
  }

  lemma AddPieceKeepsWellFormed(b: Boards.Board, col: int, piece: int)
    requires WellFormed(b) && (piece == 1 || piece == -1)
    ensures WellFormed(Boards.AddPiece(b, col, piece).0)
  {
    Boards.AddPieceKeepsGravity(b, col, piece);
    Boards.AddPieceKeepsTokens(b, col, piece);
  }

  /** A successful half-move leaves the board as `add_piece` leaves it. */
  lemma ActBoard(e: Env, action: int, isTrainer: bool)
    requires Act(e, action, isTrainer).Success?
    ensures Act(e, action, isTrainer).value.board == Boards.AddPiece(e.board, action, Piece(isTrainer)).0
  {
  }

  /** A step never breaks the token range or the gravity invariant. */
  lemma StepKeepsWellFormed(e: Env, action: int)
    requires WellFormed(e.board)
    ensures Step(e, action).Success? ==> WellFormed(Step(e, action).value.board)
  {
    if Step(e, action).Success? {
      SuccessfulStepKeepsWellFormed(e, action);
    }
  }

  lemma SuccessfulStepKeepsWellFormed(e: Env, action: int)
    requires WellFormed(e.board) && Step(e, action).Success?
    ensures WellFormed(Step(e, action).value.board)
  {
    if !e.done && InActionSpace(e, action) && Boards.IsOpen(e.board, action) {
      var b := Boards.AddPiece(e.board, action, 1).0;
      AddPieceKeepsWellFormed(e.board, action, 1);
      if !Boards.Won(b) && !Boards.Drawn(b) {
        var e1 := e.(board := b, reward := 0.0, done := false, info := None);
        if !e1.done {
          var choice := Players.GetAction(e1.trainer.value, Negate(State(e1)));
          ActBoard(e1.(trainer := Some(choice.value.1)), choice.value.0, true);
          AddPieceKeepsWellFormed(b, choice.value.0, -1);
        }
      }
    }
  }

  /** Wrong moves accumulate: `n` wrong steps in a row add `n` to the
      counter and leave the board as it was. */
  lemma {:induction false} WrongMovesAccumulate(e: Env, action: int, n: nat)
    requires Stuck(e, action)
    ensures RepeatStep(e, action, n).Success?
    ensures Stuck(RepeatStep(e, action, n).value, action)
    ensures RepeatStep(e, action, n).value.nwrongMoves == e.nwrongMoves + n
    ensures RepeatStep(e, action, n).value.board == e.board
    ensures n > 0 ==> RepeatStep(e, action, n).value.info == Some(WrongMove)
    decreases n
  {
    if n > 0 {
      StepWrongMove(e, action);
      var next := Step(e, action).value;
      WrongMovesAccumulate(next, action, n - 1);
      assert RepeatStep(e, action, n) == RepeatStep(next, action, n - 1);
    }
  }

  /** The episode is running and `action` names an existing but full column. */
  predicate Stuck(e: Env, action: int) {
    !e.done && InActionSpace(e, action) && !Boards.IsOpen(e.board, action)
  }

  /** A wrong move by the learner only bumps the counter and sets the tag. */
  lemma StepWrongMove(e: Env, action: int)
    requires Stuck(e, action)
    ensures Step(e, action).Success? && Stuck(Step(e, action).value, action)
    ensures Step(e, action).value.nwrongMoves == e.nwrongMoves + 1
    ensures Step(e, action).value.board == e.board
    ensures Step(e, action).value.info == Some(WrongMove)
  {
  }

  /** The same action stepped `n` times. */
  function RepeatStep(e: Env, action: int, n: nat): Result<Env, Fault>
    decreases n
  {
    if n == 0 then Success(e)
    else match Step(e, action)
      case Failure(f) => Failure(f)
      case Success(next) => RepeatStep(next, action, n - 1)
  }
}
