/** The turn-stepping environment. It owns a board, consults a registered
    trainer, and keeps the last step's reward, terminal flag and outcome tag
    plus two counters. The learner plays +1; the trainer plays -1 and is shown
    the negated grid, so that it also sees itself as +1.

    A Python assertion or exception that ends a call is a `Failure(fault)`
    here; the state such a call leaves behind is not modelled. */
module FourInRowEnv {
  import opened Wrappers
  import opened Grids
  import Boards
  import Players

  const FOUR: nat := 4

  /** Rewards, exactly as configured. */
  const LostValue: real := -1.0
  const WonValue: real := 1.0
  const DrawnValue: real := 0.8
  const WrongValue: real := -5.0

  /** Outcome tags (`WLDEnum`). `Continue` exists but is never assigned: an
      ongoing game leaves the tag at `None`. */
  datatype WLD = Won | Lost | Drawn | WrongMove | Continue

  datatype Fault =
    | ShapeTooSmall       // the constructor asserts rows > 4 and cols > 4
    | ActionOutsideSpace  // `_act` asserts the action lies in [0, cols)
    | TrainerMissing      // the trainer is consulted before any was registered
    | TrainerCrashed      // the trainer's `get_action` raised
    | TrainerWrongMove    // the trainer named a column that is not open

  datatype Env = Env(
    rows: int,
    cols: int,
    board: Boards.Board,
    trainer: Option<Players.Player>,
    reward: real,
    done: bool,
    info: Option<WLD>,
    nwrongMoves: nat,
    ngame: int)

  /** `state`: the grid as the learner sees it. */
  function State(e: Env): Grid {
    e.board.grid
  }

  /** `state_trainer`: the grid with the signs swapped. */
  function StateTrainer(e: Env): (g: Grid)
    ensures SameShape(g, State(e))
    ensures forall i, j :: InGrid(State(e), i, j) ==> g[i][j] == -State(e)[i][j]
  {
    Boards.Invert(e.board)
  }

  /** `action_space.contains`. */
  predicate InActionSpace(e: Env, action: int) {
    0 <= action < e.cols
  }

  function Piece(isTrainer: bool): int {
    if isTrainer then -1 else 1
  }

  /** The reward each outcome tag goes with. */
  function RewardOf(info: Option<WLD>): real {
    match info
    case None => 0.0
    case Some(Won) => WonValue
    case Some(Lost) => LostValue
    case Some(Drawn) => DrawnValue
    case Some(WrongMove) => WrongValue
    case Some(Continue) => 0.0
  }

  predicate IsTerminal(info: Option<WLD>) {
    info == Some(Won) || info == Some(Lost) || info == Some(Drawn)
  }

  /** What every reachable environment satisfies: the reward matches the
      outcome tag, `Continue` is never set, and the episode is over exactly
      when the tag says won, lost or drawn. */
  predicate Consistent(e: Env) {
    && e.info != Some(Continue)
    && e.reward == RewardOf(e.info)
    && (e.done <==> IsTerminal(e.info))
  }

  /** `reset_internals`: no outcome, not done, zero reward. */
  function ResetInternals(e: Env): (r: Env)
    ensures r.info.None? && !r.done && r.reward == 0.0
    ensures Consistent(r)
    ensures r.board == e.board && r.trainer == e.trainer
    ensures r.nwrongMoves == e.nwrongMoves && r.ngame == e.ngame
    ensures r.rows == e.rows && r.cols == e.cols
  {
    e.(info := None, done := false, reward := 0.0)
  }

  /** `reset`: a new game. The game counter grows by one, the wrong-move
      counter and the transient fields are cleared and the board is emptied;
      the registered trainer stays. */
  function Reset(e: Env): (r: Env)
    ensures r.ngame == e.ngame + 1 && r.nwrongMoves == 0
    ensures r.info.None? && !r.done && r.reward == 0.0
    ensures r.board == Boards.Reset(e.board)
    ensures forall i, j :: InGrid(State(r), i, j) ==> State(r)[i][j] == 0
    ensures r.board.nmove == 1
    ensures r.rows == e.rows && r.cols == e.cols && r.trainer == e.trainer
    ensures Consistent(r)
  {
    ResetInternals(e).(ngame := e.ngame + 1, nwrongMoves := 0, board := Boards.Reset(e.board))
  }

  /** The constructor: the shape must exceed 4 in both directions; the game
      counter starts at -1 and the constructor's own reset brings it to 0; no
      trainer is registered yet. */
  function Init(rows: int, cols: int): (r: Result<Env, Fault>)
    ensures r.Failure? <==> rows <= 4 || cols <= 4
    ensures r.Failure? ==> r.error == ShapeTooSmall
    ensures r.Success? ==>
      && r.value.ngame == 0 && r.value.nwrongMoves == 0 && r.value.trainer.None?
      && r.value.rows == rows && r.value.cols == cols
      && r.value.board.winAt == FOUR && r.value.board.nmove == 1
      && |State(r.value)| == rows && Width(State(r.value)) == cols
      && (forall i, j :: InGrid(State(r.value), i, j) ==> State(r.value)[i][j] == 0)
      && Consistent(r.value) && !r.value.done
  {
    if rows <= 4 || cols <= 4 then Failure(ShapeTooSmall)
    else Success(Reset(Env(rows, cols, Boards.NewBoard(rows, cols, FOUR), None, 0.0, false, None, 0, -1)))
  }

  function RegisterTrainer(e: Env, p: Players.Player): (r: Env)
    ensures r.trainer == Some(p)
    ensures r.board == e.board && r.reward == e.reward && r.done == e.done && r.info == e.info
    ensures r.nwrongMoves == e.nwrongMoves && r.ngame == e.ngame
    ensures r.rows == e.rows && r.cols == e.cols
  {
    e.(trainer := Some(p))
  }

  /** `_act`: one half-move. An action outside [0, cols) is a fault. A column
      that is not open is a fault for the trainer and a penalised wrong move
      for the learner (the episode goes on). A legal placement that wins ends
      the episode as won (learner) or lost (trainer); one that fills the
      board without a win ends it as drawn; otherwise only the board changes. */
  function Act(e: Env, action: int, isTrainer: bool): (r: Result<Env, Fault>)
    ensures !InActionSpace(e, action) ==> r == Failure(ActionOutsideSpace)
    ensures InActionSpace(e, action) && !Boards.IsOpen(e.board, action) ==>
      if isTrainer then r == Failure(TrainerWrongMove)
      else r == Success(e.(reward := WrongValue, info := Some(WrongMove), nwrongMoves := e.nwrongMoves + 1))
    ensures InActionSpace(e, action) && Boards.IsOpen(e.board, action) ==>
      var b := Boards.AddPiece(e.board, action, Piece(isTrainer)).0;
      && r.Success?
      && (Boards.Won(b) ==>
            r.value == e.(board := b, reward := (if isTrainer then LostValue else WonValue),
                          done := true, info := Some(if isTrainer then Lost else Won)))
      && (!Boards.Won(b) && Boards.Drawn(b) ==>
            r.value == e.(board := b, reward := DrawnValue, done := true, info := Some(Drawn)))
      && (!Boards.Won(b) && !Boards.Drawn(b) ==> r.value == e.(board := b))
  {
    if !InActionSpace(e, action) then Failure(ActionOutsideSpace)
    else
      var (b, placed) := Boards.AddPiece(e.board, action, Piece(isTrainer));
      if placed then
        if Boards.Won(b) then
          Success(e.(board := b, reward := (if isTrainer then LostValue else WonValue),
                     done := true, info := Some(if isTrainer then Lost else Won)))
        else if Boards.Drawn(b) then
          Success(e.(board := b, reward := DrawnValue, done := true, info := Some(Drawn)))
        else Success(e.(board := b))
      else if isTrainer then Failure(TrainerWrongMove)
      else Success(e.(reward := WrongValue, info := Some(WrongMove), nwrongMoves := e.nwrongMoves + 1))
  }

  /** `learner_step`: nothing happens once the episode is over; otherwise the
      transient fields are cleared and the learner's half-move is played. */
  function LearnerStep(e: Env, action: int): (r: Result<Env, Fault>)
    // a finished episode stays exactly as it is, whatever the action
    ensures e.done ==> r == Success(e)
    ensures !e.done && !InActionSpace(e, action) ==> r == Failure(ActionOutsideSpace)
    // a wrong move: penalty, one more wrong move, board and trainer untouched
    ensures !e.done && InActionSpace(e, action) && !Boards.IsOpen(e.board, action) ==>
      r == Success(e.(reward := WrongValue, done := false, info := Some(WrongMove),
                      nwrongMoves := e.nwrongMoves + 1))
    // a legal move: +1 in the column's lowest empty cell, then won, drawn or undecided
    ensures !e.done && InActionSpace(e, action) && Boards.IsOpen(e.board, action) ==>
      var b := Boards.AddPiece(e.board, action, 1).0;
      && (Boards.Won(b) ==>
            r == Success(e.(board := b, reward := WonValue, done := true, info := Some(Won))))
      && (!Boards.Won(b) && Boards.Drawn(b) ==>
            r == Success(e.(board := b, reward := DrawnValue, done := true, info := Some(Drawn))))
      && (!Boards.Won(b) && !Boards.Drawn(b) ==>
            r == Success(e.(board := b, reward := 0.0, done := false, info := None)))
    // whatever happens, the outcome tag, reward and flag agree
    ensures !e.done && r.Success? ==> Consistent(r.value)
  {
    if !e.done then Act(ResetInternals(e), action, false) else Success(e)
  }

  /** `trainer_step`: nothing happens once the episode is over; otherwise the
      trainer is shown the negated grid, its counter (if any) advances, and
      its answer is played as a -1 half-move. Unlike the learner, the trainer
      does not clear the transient fields first. */
  function TrainerStep(e: Env): (r: Result<Env, Fault>)
    ensures e.done ==> r == Success(e)
    ensures !e.done && e.trainer.None? ==> r == Failure(TrainerMissing)
    ensures !e.done && e.trainer.Some? ==>
      var choice := Players.GetAction(e.trainer.value, Negate(State(e)));
      && (choice.None? ==> r == Failure(TrainerCrashed))
      && (choice.Some? ==>
            var t := choice.value.0;
            var p := choice.value.1;
            && (!InActionSpace(e, t) ==> r == Failure(ActionOutsideSpace))
            // a trainer naming a column that is not open is a fault, not a penalty
            && (InActionSpace(e, t) && !Boards.IsOpen(e.board, t) ==> r == Failure(TrainerWrongMove))
            // a legal move: -1 in the column's lowest empty cell; a win for it is a loss
            && (InActionSpace(e, t) && Boards.IsOpen(e.board, t) ==>
                  var b := Boards.AddPiece(e.board, t, -1).0;
                  && (Boards.Won(b) ==>
                        r == Success(e.(board := b, trainer := Some(p), reward := LostValue,
                                        done := true, info := Some(Lost))))
                  && (!Boards.Won(b) && Boards.Drawn(b) ==>
                        r == Success(e.(board := b, trainer := Some(p), reward := DrawnValue,
                                        done := true, info := Some(Drawn))))
                  && (!Boards.Won(b) && !Boards.Drawn(b) ==>
                        r == Success(e.(board := b, trainer := Some(p))))))
    // from a consistent state the outcome tag, reward and flag still agree
    ensures Consistent(e) && r.Success? ==> Consistent(r.value)
  {
    if e.done then Success(e)
    else match e.trainer
      case None => Failure(TrainerMissing)
      case Some(p) =>
        match Players.GetAction(p, StateTrainer(e))
        case None => Failure(TrainerCrashed)
        case Some(choice) => Act(e.(trainer := Some(choice.1)), choice.0, true)
  }

  /** `step`: the learner's half-move and then, unless it was a wrong move,
      the trainer's. The Python step returns the tuple
      (State(e'), e'.reward, e'.done, (e'.info, e'.nwrongMoves)) of the result. */
  function Step(e: Env, action: int): (r: Result<Env, Fault>)
    // a finished episode stays exactly as it is, whatever the action
    ensures e.done ==> r == Success(e)
    ensures !e.done && !InActionSpace(e, action) ==> r == Failure(ActionOutsideSpace)
    // a wrong move: penalty, one more wrong move, board and trainer untouched
    ensures !e.done && InActionSpace(e, action) && !Boards.IsOpen(e.board, action) ==>
      r == Success(e.(reward := WrongValue, done := false, info := Some(WrongMove),
                      nwrongMoves := e.nwrongMoves + 1))
    ensures !e.done && InActionSpace(e, action) && Boards.IsOpen(e.board, action) ==>
      var b := Boards.AddPiece(e.board, action, 1).0;
      // the learner's move decides the game: the trainer is not consulted
      && (Boards.Won(b) ==>
            r == Success(e.(board := b, reward := WonValue, done := true, info := Some(Won))))
      && (!Boards.Won(b) && Boards.Drawn(b) ==>
            r == Success(e.(board := b, reward := DrawnValue, done := true, info := Some(Drawn))))
      // otherwise the trainer answers on the new board, from a cleared state
      && (!Boards.Won(b) && !Boards.Drawn(b) ==>
            r == TrainerStep(e.(board := b, reward := 0.0, done := false, info := None)))
  {
    var e1 :- LearnerStep(e, action);
    if e1.info != Some(WrongMove) then TrainerStep(e1) else Success(e1)
  }
}
