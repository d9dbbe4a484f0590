# Connect Four engine and training environment, in Dafny

This project models the rules engine of a Connect-Four game and the
turn-stepping reinforcement-learning environment built around it.

- **Board.** The board is a rectangular grid of cells holding 0 (empty), +1 or -1. It also keeps a winning run length `win_at` (the "threshold") and a move counter.
- **Pieces and queries.** Pieces drop with gravity into the lowest empty cell of a column. `available_cols` lists the open columns.
- **Winning.** `won` scans every row, every column, every diagonal and every diagonal of the mirrored grid for a window of `win_at` cells whose sum has absolute value `win_at`.
- **Drawing.** `drawn` is a full board that is not won.
- **Environment.** The environment owns a board and a registered trainer. Each `step` plays the learner's +1 half-move and then, unless that move was a wrong move, the trainer's -1 half-move. The trainer is shown the negated grid.
- **State kept between steps.** The environment keeps the last reward, the terminal flag, an outcome tag (won, lost, drawn, wrong move), a wrong-move counter and a game counter.

Modules, one per file:

- `Wrappers` (`wrappers.dfy`): `Option` and `Result`.
- `Grids` (`grids.dfy`): the grid type, with negation, transpose, mirroring, counting and open columns.
- `WinCheck` (`win.dfy`): the board's line-and-window win test. It also proves three independent readings equivalent to it:
  - a geometric one: a straight run of `w` cells in one of four directions whose sum has absolute value `w`;
  - the game's own rule: `w` identical nonzero tokens in a straight line;
  - a cell-by-cell scan that looks for such a line starting at each cell in turn. It can be evaluated on a concrete grid.
- `Boards` (`board.dfy`): the board record, with `reset`, `add_piece`, `won`, `drawn` and `b_array_invert`.
- `Players` (`players.dfy`): the round-robin sequential trainer, any other policy given as a function of the grid, and `get_available_cols`.
- `FourInRowEnv` (`env.dfy`): the environment record and its operations.
- `EnvProperties` (`env_properties.dfy`): properties that span several operations or whole steps.
- `Positions` (`positions.dfy`): the 6 x 7 positions that the tests play through. For the ones that are not won, it holds the certificate: the cell-by-cell scan evaluated one row at a time.
- `Scenarios` (`scenarios.dfy`): the concrete games of the repository's board and environment tests, apart from the rendering tests. They are derived from the general contracts and the certificates.

A Python `assert` or exception that aborts a call is modelled as `Failure(fault)`:

- a shape of 4 or less;
- an action outside `[0, cols)`;
- a missing trainer;
- a sequential trainer on a grid with no columns (its division by zero);
- a trainer naming a full column.

Rewards are exact `real`s. The drawn reward is 0.8.

## Model

| member | source | states |
|---|---|---|
| Grids.Negate | Board/Board.py:33-36 | the result has the same shape and every cell is the negation of the input cell |
| Grids.NegateInvolutive | Board/Board.py:33-36 | negating a grid twice gives back the original grid |
| Grids.Transpose | Board/Board.py:94 | cell (c, r) of the transpose is cell (r, c) of the grid, and rows and columns swap counts |
| Grids.FlipLR | Board/Board.py:94 | cell (r, c) of the mirrored grid is cell (r, width-1-c) of the original |
| Grids.Zeros | Board/Board.py:16-18 | the grid has the requested shape and every cell is 0 |
| Grids.CountNonzero | Board/Board.py:46-48 | the count of nonzero entries is at most the length, and equals it exactly when every entry is nonzero |
| Grids.CountNonzeroRows | Board/Board.py:46-48 | the count over the first rows is at most rows times width, and reaches it exactly when all those cells are nonzero |
| Grids.OpenColumns | Board/Board.py:20-23 | the result is strictly ascending and holds exactly the columns that contain a 0 |
| Grids.IncreasingUnique | Board/Board.py:20-23 | two strictly ascending lists with the same members are equal, so the open-column list is the only such list |
| WinCheck.RowsAreHorizontalRuns | Board/Board.py:74-85 | some row holds a winning window exactly when some horizontal run of the threshold's length has an absolute sum equal to the threshold |
| WinCheck.ColumnsAreVerticalRuns | Board/Board.py:74-85 | some column of the transpose holds a winning window exactly when some vertical run does |
| WinCheck.DiagonalsAreDiagonalRuns | Board/Board.py:87-91 | some diagonal at offsets -(rows-1) .. cols-1 holds a winning window exactly when some down-right run does |
| WinCheck.MirroredDiagonalsAreAntiDiagonalRuns | Board/Board.py:87-94 | the diagonals of the mirrored grid hold a winning window exactly when some down-left run of the original does |
| WinCheck.WonIffRun | Board/Board.py:72-98 | for a positive threshold the board's scan reports a win exactly when a straight run of that length in one of the four directions has absolute sum equal to the threshold |
| WinCheck.AbsSumOfTokens | Board/Board.py:83 | on cells in {-1, 0, 1} a window's absolute sum equals its length exactly when all its cells are +1 or all are -1 |
| WinCheck.WonIffConnected | Board/Board.py:72-98 | on a token grid with a positive threshold the scan reports a win exactly when the threshold's number of identical nonzero tokens lie in a straight line |
| WinCheck.WonNegate | Board/Board.py:72-98 | negating every cell never changes whether the grid is won |
| WinCheck.WonAtZero | Board/Board.py:77-83 | with threshold 0 every grid that has a row counts as won, because the empty window sums to 0 |
| WinCheck.ZerosNotWon | Board/Board.py:72-98 | an all-empty grid is never won at a positive threshold |
| WinCheck.TooLongNeverWins | Board/Board.py:77-79 | a threshold longer than both sides of the grid is never reached, because every line is too short |
| WinCheck.WonIffScan | Board/Board.py:72-98 | on a token grid with a positive threshold the scan reports a win exactly when, at some cell, the threshold's number of identical tokens start in one of the four directions |
| WinCheck.NoWinWithoutEqualPair | Board/Board.py:72-98 | a token grid where no two occupied cells hold the same token is not won at a threshold of two or more |
| Boards.NewBoard | Board/Board.py:10-14 | a new board keeps the given shape and threshold, has every cell 0 and starts the move counter at 1 |
| Boards.Reset | Board/Board.py:16-18 | after reset the grid has the configured shape, every cell is 0, the move counter is 1 and the configuration is kept |
| Boards.ResetQueries | Board/Board.py:16-23 | right after a reset exactly the configured columns are open, and with a positive threshold the board is neither won nor drawn |
| Boards.AvailableCols | Board/Board.py:20-23 | strictly ascending, and a column is listed exactly when it exists and is not full |
| Boards.Invert | Board/Board.py:33-36 | same shape, every cell negated |
| Boards.InvertProperties | Board/Board.py:33-40 | inverting twice gives back the grid, and replacing the grid by its inversion leaves `won` unchanged |
| Boards.Filled | Board/Board.py:46-48 | the board counts as full exactly when every cell is nonzero |
| Boards.Drawn | Board/Board.py:42-44 | drawn exactly when every cell is nonzero and the board is not won, so never both won and drawn |
| Boards.LowestEmpty | Board/Board.py:105 | the chosen row holds 0 in that column and every row below it is occupied, so it is the largest empty row index |
| Boards.AddPiece | Board/Board.py:100-108 | succeeds exactly when the column exists and has an empty cell. A refusal leaves the board unchanged. A success writes the piece into the lowest empty cell, changes no other cell, keeps the shape and increments the move counter |
| Boards.AddPieceKeepsGravity | Board/Board.py:104-106 | if every column's occupied cells are stacked from the bottom before a drop of a real token, they still are after it |
| Boards.AddPieceKeepsTokens | Board/Board.py:100-108 | dropping a token keeps every cell in {-1, 0, 1} |
| Players.GetAction | Players/PlayerBase.py:42-45 | the sequential player answers its counter modulo the grid's width, which lies in [0, width), and counts the call; on a grid without columns it fails; any other policy answers its function of the grid |
| Players.SequentialCycles | Players/PlayerBase.py:36-45 | shown grids of one width, the k-th answer is (count + k) mod width and the counter grows by one per call |
| Players.SequentialIgnoresCells | Players/PlayerBase.py:42-45 | the sequential player can name a full column: on a one-cell full grid it answers 0, which is not open |
| Players.GetAvailableCols | Players/PlayerBase.py:47-49 | strictly ascending, and a column is listed exactly when it contains a 0 |
| Players.UpdateInternals | Players/PlayerBase.py:19-20 | the default training hook returns the player unchanged |
| FourInRowEnv.StateTrainer | Env/FourInRowEnv.py:42-44 | the trainer's view has the board's shape with every cell negated |
| FourInRowEnv.ResetInternals | Env/FourInRowEnv.py:91-94 | clears the outcome tag, the terminal flag and the reward, and keeps everything else |
| FourInRowEnv.Reset | Env/FourInRowEnv.py:84-94 | increments the game counter, zeroes the wrong-move counter, clears tag, flag and reward, empties the board with the move counter at 1, and keeps the shape and the trainer |
| FourInRowEnv.Init | Env/FourInRowEnv.py:18-28 | fails exactly when rows or columns are 4 or fewer. Otherwise it yields game 0, no wrong moves, no trainer, threshold 4, an empty board of the given shape, and a consistent, unfinished state |
| FourInRowEnv.RegisterTrainer | Env/FourInRowEnv.py:81-82 | installs the trainer and changes nothing else |
| FourInRowEnv.Act | Env/FourInRowEnv.py:116-138 | an action outside [0, cols) is a fault. A full column is a fault for the trainer and, for the learner, a wrong move with the penalty and one more wrong move on an unchanged board. A legal drop that wins ends the game as won (learner) or lost (trainer); one that fills the board ends it as drawn; otherwise only the board changes |
| FourInRowEnv.LearnerStep | Env/FourInRowEnv.py:96-101 | a finished episode is left alone; an action outside the space is a fault; a full column costs the -5 penalty and one more wrong move with board and trainer untouched; otherwise +1 lands in the column's lowest empty cell and the game is won (reward 1), drawn (0.8) or goes on with reward 0 and no tag; the tag, reward and flag always agree afterwards |
| FourInRowEnv.TrainerStep | Env/FourInRowEnv.py:103-107 | a finished episode is left alone; no trainer, a failed choice, an action outside the space or a column that is not open is a fault; otherwise the choice made on the negated grid puts -1 in the column's lowest empty cell, keeps the trainer's advanced state, and the game is lost (reward -1), drawn (0.8) or left with its other fields unchanged; from a consistent state the tag, reward and flag still agree |
| FourInRowEnv.Step | Env/FourInRowEnv.py:109-114 | a finished episode stays exactly as it is. A wrong move gives the penalty, one more wrong move, an unchanged board and no trainer call. A winning or drawing learner move ends the game without consulting the trainer. Otherwise the trainer answers on the new board |
| EnvProperties.StepTrainerHalfMove | Env/FourInRowEnv.py:103-133 | after a legal, undecided learner move, the trainer's move on the negated grid decides the step. A win for it is a loss with reward -1; a full board is a draw with reward 0.8; otherwise the game goes on with reward 0. A full column from the trainer is a fault |
| EnvProperties.StepContinuingAddsTwoPieces | Env/FourInRowEnv.py:91-114 | a step that neither ends the game nor is a wrong move leaves reward 0 and no tag, keeps the wrong-move counter, and adds exactly one +1 and one -1 into previously empty cells |
| EnvProperties.TwoPlacements | Board/Board.py:100-108 | a +1 drop followed by a -1 drop adds exactly those two pieces and advances the move counter by 2 |
| EnvProperties.StepKeepsConsistent | Env/FourInRowEnv.py:109-138 | every successful step keeps the reward equal to its outcome tag's reward, never sets `CONTINUE`, and finishes the episode exactly on won, lost or drawn |
| EnvProperties.StepKeepsWellFormed | Env/FourInRowEnv.py:109-138 | a step keeps every cell a token and every column stacked from the bottom |
| EnvProperties.WrongMovesAccumulate | Env/FourInRowEnv.py:131-138 | stepping n times into a full column adds n to the wrong-move counter, leaves the board unchanged and never ends the episode |
| Scenarios.AvailableColsEmpty | Board/tests/test_board.py:7-14 | all four columns of an empty 3 x 4 board are open |
| Scenarios.AvailableColsLastFull | Board/tests/test_board.py:16-21 | a full last column drops out of the list |
| Scenarios.AvailableColsFull | Board/tests/test_board.py:23-28 | a full board has no open column |
| Scenarios.AddPieceStacks | Board/tests/test_board.py:35-64 | three drops into column 0 stack from the bottom up, and a fourth is refused with the board unchanged |
| Scenarios.DrawnExamples | Board/tests/test_board.py:66-81 | a 2 x 2 board at threshold 3 is not drawn while a cell is empty, and is drawn but not won when full |
| Scenarios.NotWonExamples | Board/tests/test_board.py:84-104 | the empty 3 x 3 board and the scattered position of the won test are not won at threshold 2 |
| Scenarios.WonInRow | Board/tests/test_board.py:92-97 | a horizontal pair wins at threshold 2 |
| Scenarios.WonInColumn | Board/tests/test_board.py:106-111 | a vertical pair wins at threshold 2 |
| Scenarios.WonOnDiagonal | Board/tests/test_board.py:113-118 | a diagonal pair wins at threshold 2 |
| Scenarios.WonOnMainDiagonal | Board/tests/test_board.py:140-146 | three on the main diagonal win at threshold 3 |
| Scenarios.ShortDiagonalExamples | Board/tests/test_board.py:120-138 | on a 2 x 3 board at threshold 2, an equal pair on a short anti-diagonal or diagonal wins, and the position without one is not won |
| Scenarios.AntiDiagonalExamples | Board/tests/test_board.py:148-160 | on a 3 x 3 board at threshold 3 the full anti-diagonal wins, and the position without its top cell is not won |
| Scenarios.RegressionExamples | Board/tests/test_board.py:162-196 | each full 6 x 7 grid on a board with threshold 2, and the negation of the second, is won and not drawn |
| Scenarios.BrokenOpenUndecided | Board/tests/test_board.py:198-208 | the position with three empty cells in column 4 has no run of four and is neither won nor drawn |
| Scenarios.BrokenAntiWon | Board/tests/test_board.py:210-218 | a -1 at row 2, column 4 of that position completes an anti-diagonal, so it is won and not drawn |
| Scenarios.BrokenDiagWon | Board/tests/test_board.py:220-228 | a +1 there completes a diagonal, so it is won and not drawn |
| Scenarios.ActionSpaceExample | Env/tests/test_env.py:11-18 | the default environment accepts exactly the actions 0 to 6 |
| Scenarios.ResetExample | Env/tests/test_env.py:28-32 | resetting a new environment gives game 1 with no wrong moves |
| Scenarios.TrainerWinExample | Env/tests/test_env.py:53-67 | a trainer that picks an open column fills the last empty cell, completes a run of -1 and ends the game as lost with reward -1 |
| Scenarios.TrainerDrawExample | Env/tests/test_env.py:69-83 | a trainer that picks an open column fills the last empty cell without a run, ending the game as drawn with reward 0.8 |
| Scenarios.TrainerStepOnFreshEnv | Env/tests/test_env.py:34-51 | on a fresh 6 x 7 board the sequential trainer drops -1 into the bottom of column 0, and the game goes on with reward 0 and no tag |
| Scenarios.StepOnFreshEnv | Env/tests/test_env.py:85-103 | a step into column 0 of a fresh board places +1 at the bottom and the trainer's -1 above it, with reward 0, no tag, no wrong move and the game going on |
| Scenarios.StepWrongMoveExample | Env/tests/test_env.py:161-180 | a step into a full column leaves the board unchanged, with the penalty, the wrong-move tag, one wrong move and the game going on |
| Scenarios.StepWinExample | Env/tests/test_env.py:105-131 | the learner's move into the last open cell completes an anti-diagonal, ending the game as won with reward 1 and no wrong move |
| Scenarios.StepDrawExample | Env/tests/test_env.py:133-159 | the learner's move into the last open cell makes no run of four, ending the game as drawn with reward 0.8 and no trainer move |
| Scenarios.StepLostExample | Env/tests/test_env.py:182-208 | the learner's move decides nothing, and the sequential trainer's reply in column 0 makes four -1 in a column, ending the game as lost with reward -1 |

## Left out

- Rendering is not modelled: the pygame GUI, `render`, `render_labelkey`, `stats` and the render hook. It is presentation only.
- Pickling and restoring players is not modelled, because it is file I/O.
- The stdin-driven human player is not modelled.
- The random player and the random choice of who starts are not modelled, because both draw on the `random` module. A random or learned trainer is the `Policy` variant: any function from the grid it is shown to a column.
- The first `_check_win` in the board class is not modelled. A second definition of the same name replaces it, so it is dead code.
- gym `spaces` are not modelled. Membership in the action space is `0 <= action < cols`. The observation space is not used by any modelled operation.
- The grid's `int8` element type is not modelled. Cells are unbounded integers, and the window sums are not truncated. With cells in {-1, 0, 1} this makes no difference. The numpy sum widens `int8` anyway.
- The state an environment is left in when a call aborts is not modelled. The model returns the fault instead, so partial updates made before an `assert` fires are not kept.
- Several accessors are plain field reads and are not separate members: the environment's `moves` property (the board's move counter) and the `rows`/`cols` properties of the board and the environment. So `test_rows_cols` is not restated.
- The rendering tests are not restated: `test_boardgui.py`, the render tests of the environment, and the label-key check in `test_register_trainer`. They compare images or GUI labels.
- Boards.Board: the shape and the threshold are natural numbers. So two error paths of the Python board are not modelled: a negative threshold, where the line scan's window raises `ValueError`, and a negative row or column count, where `np.zeros` raises in `reset`. The environment only ever builds boards with threshold 4 and both sides above 4. `WinCheck.Won` likewise takes a natural threshold.
- FourInRowEnv.Step: the observation is returned by value. In Python `state`, `step` and `reset` return the board's live array, and later drops overwrite it in place (through the transposed view in `add_piece`). So an observation kept by the caller changes until `reset` replaces the array. The model's grids are values.
- FourInRowEnv.RegisterTrainer: the trainer is stored by value. In Python the environment keeps a reference to the caller's player object. So the caller sees the sequential player's counter that `trainer_step` advances, and environments registered with the same player share that counter. The model returns the advanced player only inside the new environment.
- Grids.Width: a grid with no rows is given width 0, while numpy keeps the declared column count. This only matters for a board configured with zero rows.
- Players.GetAction: the sequential player's failure on a grid without columns (a division by zero in Python) is `None`, not an exception. A `Policy` trainer is a total function of the grid, so a random or learned trainer that raises cannot be expressed; only the sequential trainer can fail.
- WinCheck.WonIffRun, WinCheck.WonIffConnected: stated only for a positive threshold. Threshold 0 is described separately by `WinCheck.WonAtZero`.
