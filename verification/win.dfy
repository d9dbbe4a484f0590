/** Win detection as the board computes it: every row, every column, every
    diagonal at offsets `-(rows - 1) .. cols - 1` and every diagonal of the
    left-right mirrored grid is a line; a line wins when some window of
    `w` consecutive cells has a sum of absolute value `w`.

    The second half of the module gives that procedure two independent
    readings and proves them equivalent to it: a geometric one (some straight
    run of `w` cells in one of the four directions has |sum| == w) and, on
    grids of tokens, the game's own rule (some straight run of `w` cells all
    hold the same nonzero token). */
module WinCheck {
  import opened Grids

  function Abs(x: int): nat {
    if x < 0 then -x else x
  }

  function Min(a: int, b: int): int {
    if a <= b then a else b
  }

  function Sum(s: seq<int>): int {
    if |s| == 0 then 0 else s[0] + Sum(s[1..])
  }

  /** The window `line[s..s + w]` sums to plus or minus `w`. */
  predicate WindowWins(line: seq<int>, s: nat, w: nat)
    requires s + w <= |line|
  {
    Abs(Sum(line[s..s + w])) == w
  }

  /** One line holds a winning window; lines shorter than `w` never do. */
  predicate FoundPattern(line: seq<int>, w: nat) {
    if |line| < w then false
    else exists s: nat :: s + w <= |line| && WindowWins(line, s, w)
  }

  predicate AnyLineWins(lines: seq<seq<int>>, w: nat) {
    exists i :: 0 <= i < |lines| && FoundPattern(lines[i], w)
  }

  /** First row index on diagonal `k` (the cells `(i, i + k)`). */
  function DiagStart(k: int): nat {
    if k >= 0 then 0 else -k
  }

  function DiagLen(g: Grid, k: int): nat {
    var stop := Min(|g|, Width(g) - k);
    if stop > DiagStart(k) then stop - DiagStart(k) else 0
  }

  /** The cells `(i, i + k)` that lie inside the grid, top to bottom (`np.diag`). */
  function Diag(g: Grid, k: int): seq<int> {
    seq(DiagLen(g, k), j requires 0 <= j < DiagLen(g, k) =>
      g[DiagStart(k) + j][DiagStart(k) + j + k])
  }

  /** Diagonals at offsets `-(rows - 1)` to `cols - 1` inclusive, short ones included. */
  function Diagonals(g: Grid): seq<seq<int>> {
    var n := |g| + Width(g) - 1;
    seq(if n > 0 then n else 0, j => Diag(g, j - (|g| - 1)))
  }

  /** The live `_check_win`: rows, columns, diagonals and mirrored diagonals. */
  predicate Won(g: Grid, w: nat) {
    || AnyLineWins(g, w)
    || AnyLineWins(Transpose(g), w)
    || AnyLineWins(Diagonals(g), w)
    || AnyLineWins(Diagonals(FlipLR(g)), w)
  }

  // ----- geometric reading -------------------------------------------------

  /** Down-right is `Diagonal`, down-left is `AntiDiagonal`. */
  datatype Direction = Horizontal | Vertical | Diagonal | AntiDiagonal

  function RowAt(d: Direction, r: int, t: int): int {
    if d == Horizontal then r else r + t
  }

  function ColAt(d: Direction, c: int, t: int): int {
    match d
    case Horizontal => c + t
    case Vertical => c
    case Diagonal => c + t
    case AntiDiagonal => c - t
  }

  /** The `w` cells starting at `(r, c)` in direction `d` all lie in the grid. */
  predicate Fits(g: Grid, r: int, c: int, d: Direction, w: nat) {
    match d
    case Horizontal => 0 <= r < |g| && 0 <= c && c + w <= Width(g)
    case Vertical => 0 <= r && r + w <= |g| && 0 <= c < Width(g)
    case Diagonal => 0 <= r && r + w <= |g| && 0 <= c && c + w <= Width(g)
    case AntiDiagonal => 0 <= r && r + w <= |g| && w <= c + 1 && c < Width(g)
  }

  function Segment(g: Grid, r: int, c: int, d: Direction, w: nat): (s: seq<int>)
    requires Fits(g, r, c, d, w)
    ensures |s| == w
  {
    seq(w, t requires 0 <= t < w => g[RowAt(d, r, t)][ColAt(d, c, t)])
  }

  /** Some straight run of `w` cells in direction `d` sums to plus or minus `w`. */
  ghost predicate HasRunIn(g: Grid, d: Direction, w: nat) {
    exists r: int, c: int :: Fits(g, r, c, d, w) && Abs(Sum(Segment(g, r, c, d, w))) == w
  }

  ghost predicate HasRun(g: Grid, w: nat) {
    HasRunIn(g, Horizontal, w) || HasRunIn(g, Vertical, w)
    || HasRunIn(g, Diagonal, w) || HasRunIn(g, AntiDiagonal, w)
  }

  /** All `w` cells of the run hold the token `p`. */
  ghost predicate Uniform(g: Grid, r: int, c: int, d: Direction, w: nat, p: int)
    requires Fits(g, r, c, d, w)
  {
    forall t :: 0 <= t < w ==> Segment(g, r, c, d, w)[t] == p
  }

  /** The game's rule: `w` identical nonzero tokens in a straight line. */
  ghost predicate HasConnected(g: Grid, w: nat) {
    exists r: int, c: int, d: Direction :: Fits(g, r, c, d, w) &&
      (Uniform(g, r, c, d, w, 1) || Uniform(g, r, c, d, w, -1))
  }

  // ----- window sums ---------------------------------------------------------

  lemma {:induction false} SumNegate(s: seq<int>)
    ensures Sum(NegateLine(s)) == -Sum(s)
  {
    if |s| > 0 {
      assert NegateLine(s)[1..] == NegateLine(s[1..]);
      SumNegate(s[1..]);
    }
  }

  /** On cells in {-1, 0, 1} a sum reaches the length of the sequence only when
      every cell is +1, and its negation only when every cell is -1. */
  lemma {:induction false} SumOfTokens(s: seq<int>)
    requires forall i :: 0 <= i < |s| ==> -1 <= s[i] <= 1
    ensures -|s| <= Sum(s) <= |s|
    ensures Sum(s) == |s| <==> forall i :: 0 <= i < |s| ==> s[i] == 1
    ensures Sum(s) == -|s| <==> forall i :: 0 <= i < |s| ==> s[i] == -1
  {
    if |s| > 0 {
      var rest := s[1..];
      assert forall i :: 0 <= i < |rest| ==> rest[i] == s[i + 1];
      SumOfTokens(rest);
      assert forall i :: 1 <= i < |s| ==> s[i] == rest[i - 1];
    }
  }

  lemma AbsSumOfTokens(s: seq<int>)
    requires forall i :: 0 <= i < |s| ==> -1 <= s[i] <= 1
    ensures Abs(Sum(s)) == |s| <==>
      (forall i :: 0 <= i < |s| ==> s[i] == 1) || (forall i :: 0 <= i < |s| ==> s[i] == -1)
  {
    SumOfTokens(s);
  }

  lemma {:induction false} SumOfZeros(s: seq<int>)
    requires forall i :: 0 <= i < |s| ==> s[i] == 0
    ensures Sum(s) == 0
  {
    if |s| > 0 {
      assert forall i :: 0 <= i < |s[1..]| ==> s[1..][i] == s[i + 1];
      SumOfZeros(s[1..]);
    }
  }

  // ----- one line family at a time -------------------------------------------

  lemma RowsAreHorizontalRuns(g: Grid, w: nat)
    ensures AnyLineWins(g, w) <==> HasRunIn(g, Horizontal, w)
  {
    if AnyLineWins(g, w) {
      var i :| 0 <= i < |g| && FoundPattern(g[i], w);
      var s: nat :| s + w <= |g[i]| && WindowWins(g[i], s, w);
      assert Fits(g, i, s, Horizontal, w);
      assert g[i][s..s + w] == Segment(g, i, s, Horizontal, w);
    }
    if HasRunIn(g, Horizontal, w) {
      var r, c :| Fits(g, r, c, Horizontal, w) && Abs(Sum(Segment(g, r, c, Horizontal, w))) == w;
      assert g[r][c..c + w] == Segment(g, r, c, Horizontal, w);
      assert WindowWins(g[r], c, w);
      assert FoundPattern(g[r], w);
    }
  }

  lemma ColumnsAreVerticalRuns(g: Grid, w: nat)
    ensures AnyLineWins(Transpose(g), w) <==> HasRunIn(g, Vertical, w)
  {
    var t := Transpose(g);
    RowsAreHorizontalRuns(t, w);
    if HasRunIn(t, Horizontal, w) {
      var r, c :| Fits(t, r, c, Horizontal, w) && Abs(Sum(Segment(t, r, c, Horizontal, w))) == w;
      assert Fits(g, c, r, Vertical, w);
      assert Segment(t, r, c, Horizontal, w) == Segment(g, c, r, Vertical, w);
    }
    if HasRunIn(g, Vertical, w) {
      var r, c :| Fits(g, r, c, Vertical, w) && Abs(Sum(Segment(g, r, c, Vertical, w))) == w;
      assert Fits(t, c, r, Horizontal, w);
      assert Segment(t, c, r, Horizontal, w) == Segment(g, r, c, Vertical, w);
    }
  }

  /** A window of diagonal `k` is the down-right run that starts where the window starts. */
  lemma DiagWindowIsSegment(g: Grid, k: int, s: nat, w: nat)
    requires w >= 1 && s + w <= DiagLen(g, k)
    ensures Fits(g, DiagStart(k) + s, DiagStart(k) + s + k, Diagonal, w)
    ensures Diag(g, k)[s..s + w] == Segment(g, DiagStart(k) + s, DiagStart(k) + s + k, Diagonal, w)
  {
    var stop := Min(|g|, Width(g) - k);
    assert DiagStart(k) + s + w <= stop;
    assert stop <= |g| && stop + k <= Width(g);
  }

  lemma DiagonalsAreDiagonalRuns(g: Grid, w: nat)
    requires w >= 1
    ensures AnyLineWins(Diagonals(g), w) <==> HasRunIn(g, Diagonal, w)
  {
    var ds := Diagonals(g);
    if AnyLineWins(ds, w) {
      var i :| 0 <= i < |ds| && FoundPattern(ds[i], w);
      var k := i - (|g| - 1);
      assert ds[i] == Diag(g, k);
      var s: nat :| s + w <= |ds[i]| && WindowWins(ds[i], s, w);
      DiagWindowIsSegment(g, k, s, w);
      assert Abs(Sum(Segment(g, DiagStart(k) + s, DiagStart(k) + s + k, Diagonal, w))) == w;
    }
    if HasRunIn(g, Diagonal, w) {
      var r, c :| Fits(g, r, c, Diagonal, w) && Abs(Sum(Segment(g, r, c, Diagonal, w))) == w;
      var k := c - r;
      var i := k + |g| - 1;
      var s: nat := r - DiagStart(k);
      assert 0 <= i < |ds|;
      assert ds[i] == Diag(g, k);
      assert s + w <= DiagLen(g, k);
      DiagWindowIsSegment(g, k, s, w);
      assert WindowWins(ds[i], s, w);
      assert FoundPattern(ds[i], w);
    }
  }

  /** A down-right run of the mirrored grid is a down-left run of the grid. */
  lemma MirroredSegment(g: Grid, r: int, c: int, w: nat)
    requires Fits(FlipLR(g), r, c, Diagonal, w)
    ensures Fits(g, r, Width(g) - 1 - c, AntiDiagonal, w)
    ensures Segment(FlipLR(g), r, c, Diagonal, w) == Segment(g, r, Width(g) - 1 - c, AntiDiagonal, w)
  {
  }

  lemma MirroredDiagonalsAreAntiDiagonalRuns(g: Grid, w: nat)
    requires w >= 1
    ensures AnyLineWins(Diagonals(FlipLR(g)), w) <==> HasRunIn(g, AntiDiagonal, w)
  {
    var f := FlipLR(g);
    DiagonalsAreDiagonalRuns(f, w);
    if HasRunIn(f, Diagonal, w) {
      var r, c :| Fits(f, r, c, Diagonal, w) && Abs(Sum(Segment(f, r, c, Diagonal, w))) == w;
      MirroredSegment(g, r, c, w);
    }
    if HasRunIn(g, AntiDiagonal, w) {
      var r, c :| Fits(g, r, c, AntiDiagonal, w) && Abs(Sum(Segment(g, r, c, AntiDiagonal, w))) == w;
      var c' := Width(g) - 1 - c;
      assert Fits(f, r, c', Diagonal, w);
      MirroredSegment(g, r, c', w);
    }
  }

  // ----- the two readings of `Won` -----------------------------------------

  /** The line scan finds a winning window exactly when some straight run of
      `w` cells, in any of the four directions, has |sum| == w. */
  lemma WonIffRun(g: Grid, w: nat)
    requires w >= 1
    ensures Won(g, w) <==> HasRun(g, w)
  {
    RowsAreHorizontalRuns(g, w);
    ColumnsAreVerticalRuns(g, w);
    DiagonalsAreDiagonalRuns(g, w);
    MirroredDiagonalsAreAntiDiagonalRuns(g, w);
  }

  lemma SegmentOfTokens(g: Grid, r: int, c: int, d: Direction, w: nat)
    requires IsTokens(g) && Fits(g, r, c, d, w)
    ensures forall t :: 0 <= t < w ==> -1 <= Segment(g, r, c, d, w)[t] <= 1
  {
    forall t | 0 <= t < w
      ensures -1 <= Segment(g, r, c, d, w)[t] <= 1
    {
      assert InGrid(g, RowAt(d, r, t), ColAt(d, c, t));
    }
  }

  lemma RunIsConnected(g: Grid, d: Direction, w: nat)
    requires IsTokens(g) && HasRunIn(g, d, w)
    ensures HasConnected(g, w)
  {
    var r, c :| Fits(g, r, c, d, w) && Abs(Sum(Segment(g, r, c, d, w))) == w;
    SegmentOfTokens(g, r, c, d, w);
    AbsSumOfTokens(Segment(g, r, c, d, w));
    assert Uniform(g, r, c, d, w, 1) || Uniform(g, r, c, d, w, -1);
  }

  /** On a grid of tokens, `won` holds exactly when `w` identical nonzero
      tokens stand in a straight line: horizontally, vertically or along
      either diagonal. */
  lemma WonIffConnected(g: Grid, w: nat)
    requires IsTokens(g) && w >= 1
    ensures Won(g, w) <==> HasConnected(g, w)
  {
    WonIffRun(g, w);
    if HasRunIn(g, Horizontal, w) { RunIsConnected(g, Horizontal, w); }
    if HasRunIn(g, Vertical, w) { RunIsConnected(g, Vertical, w); }
    if HasRunIn(g, Diagonal, w) { RunIsConnected(g, Diagonal, w); }
    if HasRunIn(g, AntiDiagonal, w) { RunIsConnected(g, AntiDiagonal, w); }
    if HasConnected(g, w) {
      var r, c, d :| Fits(g, r, c, d, w) && (Uniform(g, r, c, d, w, 1) || Uniform(g, r, c, d, w, -1));
      SegmentOfTokens(g, r, c, d, w);
      AbsSumOfTokens(Segment(g, r, c, d, w));
      assert HasRunIn(g, d, w);
    }
  }

  /** With a zero threshold every line wins: the empty window sums to 0. */
  lemma WonAtZero(g: Grid)
    ensures Won(g, 0) <==> |g| > 0
  {
    if |g| > 0 {
      assert g[0][0..0] == [];
      assert WindowWins(g[0], 0, 0);
      assert FoundPattern(g[0], 0);
    } else {
      assert Transpose(g) == [];
      assert Diagonals(g) == [];
      assert Diagonals(FlipLR(g)) == [];
    }
  }

  lemma NegatedRun(g: Grid, r: int, c: int, d: Direction, w: nat)
    requires Fits(g, r, c, d, w)
    ensures Fits(Negate(g), r, c, d, w)
    ensures Abs(Sum(Segment(Negate(g), r, c, d, w))) == Abs(Sum(Segment(g, r, c, d, w)))
  {
    var s := Segment(g, r, c, d, w);
    forall t | 0 <= t < w
      ensures Segment(Negate(g), r, c, d, w)[t] == NegateLine(s)[t]
    {
      assert InGrid(g, RowAt(d, r, t), ColAt(d, c, t));
    }
    assert Segment(Negate(g), r, c, d, w) == NegateLine(s);
    SumNegate(s);
  }

  lemma NegatedRunsIn(g: Grid, d: Direction, w: nat)
    ensures HasRunIn(Negate(g), d, w) <==> HasRunIn(g, d, w)
  {
    var n := Negate(g);
    if HasRunIn(g, d, w) {
      var r, c :| Fits(g, r, c, d, w) && Abs(Sum(Segment(g, r, c, d, w))) == w;
      NegatedRun(g, r, c, d, w);
    }
    if HasRunIn(n, d, w) {
      var r, c :| Fits(n, r, c, d, w) && Abs(Sum(Segment(n, r, c, d, w))) == w;
      assert Fits(g, r, c, d, w);
      NegatedRun(g, r, c, d, w);
    }
  }

  /** Swapping the players' signs never changes whether the grid is won. */
  lemma WonNegate(g: Grid, w: nat)
    ensures Won(Negate(g), w) == Won(g, w)
  {
    if w == 0 {
      WonAtZero(g);
      WonAtZero(Negate(g));
    } else {
      WonIffRun(g, w);
      WonIffRun(Negate(g), w);
      NegatedRunsIn(g, Horizontal, w);
      NegatedRunsIn(g, Vertical, w);
      NegatedRunsIn(g, Diagonal, w);
      NegatedRunsIn(g, AntiDiagonal, w);
    }
  }

  /** An empty grid is never won once at least one cell is needed. */
  lemma ZerosNotWon(g: Grid, w: nat)
    requires w >= 1
    requires forall r, c :: InGrid(g, r, c) ==> g[r][c] == 0
    ensures !Won(g, w)
  {
    WonIffRun(g, w);
    forall r: int, c: int, d: Direction | Fits(g, r, c, d, w)
      ensures Sum(Segment(g, r, c, d, w)) == 0
    {
      var s := Segment(g, r, c, d, w);
      forall t | 0 <= t < w
        ensures s[t] == 0
      {
        assert InGrid(g, RowAt(d, r, t), ColAt(d, c, t));
      }
      SumOfZeros(s);
    }
  }

  /** On a token grid where no two distinct occupied cells hold the same
      token, no run of two or more cells can be uniform, so nothing is won. */
  lemma NoWinWithoutEqualPair(g: Grid, w: nat)
    requires IsTokens(g) && w >= 2
    requires forall i, j, i2, j2 :: InGrid(g, i, j) && InGrid(g, i2, j2) && (i != i2 || j != j2) && g[i][j] != 0
               ==> g[i][j] != g[i2][j2]
    ensures !Won(g, w)
  {
    WonIffConnected(g, w);
    forall r: int, c: int, d: Direction | Fits(g, r, c, d, w)
      ensures !Uniform(g, r, c, d, w, 1) && !Uniform(g, r, c, d, w, -1)
    {
      var s := Segment(g, r, c, d, w);
      assert InGrid(g, RowAt(d, r, 0), ColAt(d, c, 0)) && InGrid(g, RowAt(d, r, 1), ColAt(d, c, 1));
      assert s[0] == 0 || s[0] != s[1];
    }
  }

  /** A run longer than both sides of the grid fits nowhere, so it is never won. */
  lemma TooLongNeverWins(g: Grid, w: nat)
    requires w > |g| && w > Width(g)
    ensures !Won(g, w)
  {
    WonIffRun(g, w);
    forall r: int, c: int, d: Direction
      ensures !Fits(g, r, c, d, w)
    {
    }
  }

  // ----- cell-by-cell scan ---------------------------------------------------

  /** The `n` cells from `(r, c)` stepping in direction `d` lie in the grid
      and all hold `p`. */
  predicate RunOf(g: Grid, r: int, c: int, d: Direction, n: nat, p: int)
    decreases n
  {
    n == 0 || (InGrid(g, r, c) && g[r][c] == p && RunOf(g, RowAt(d, r, 1), ColAt(d, c, 1), d, n - 1, p))
  }

  /** `w` identical tokens start at `(r, c)` in one of the four directions. */
  predicate RunAt(g: Grid, w: nat, r: int, c: int) {
    || RunOf(g, r, c, Horizontal, w, 1) || RunOf(g, r, c, Horizontal, w, -1)
    || RunOf(g, r, c, Vertical, w, 1) || RunOf(g, r, c, Vertical, w, -1)
    || RunOf(g, r, c, Diagonal, w, 1) || RunOf(g, r, c, Diagonal, w, -1)
    || RunOf(g, r, c, AntiDiagonal, w, 1) || RunOf(g, r, c, AntiDiagonal, w, -1)
  }

  /** Some run starts in row `r`, at column `c` or further right. */
  predicate RunInRow(g: Grid, w: nat, r: int, c: nat)
    decreases Width(g) - c
  {
    c < Width(g) && (RunAt(g, w, r, c) || RunInRow(g, w, r, c + 1))
  }

  /** Some run starts in row `r` or further down. `RunInRows(g, w, 0)` scans
      the whole grid, one cell at a time. */
  predicate RunInRows(g: Grid, w: nat, r: nat)
    decreases |g| - r
  {
    r < |g| && (RunInRow(g, w, r, 0) || RunInRows(g, w, r + 1))
  }

  lemma {:induction false} RunOfCells(g: Grid, r: int, c: int, d: Direction, n: nat, p: int)
    ensures RunOf(g, r, c, d, n, p) <==>
      forall t :: 0 <= t < n ==> InGrid(g, RowAt(d, r, t), ColAt(d, c, t)) && g[RowAt(d, r, t)][ColAt(d, c, t)] == p
    decreases n
  {
    if n > 0 {
      var r1, c1 := RowAt(d, r, 1), ColAt(d, c, 1);
      RunOfCells(g, r1, c1, d, n - 1, p);
      assert RowAt(d, r, 0) == r && ColAt(d, c, 0) == c;
      forall t | 1 <= t < n
        ensures RowAt(d, r1, t - 1) == RowAt(d, r, t) && ColAt(d, c1, t - 1) == ColAt(d, c, t)
      {
      }
      if forall t :: 0 <= t < n ==> InGrid(g, RowAt(d, r, t), ColAt(d, c, t)) && g[RowAt(d, r, t)][ColAt(d, c, t)] == p {
        forall t | 0 <= t < n - 1
          ensures InGrid(g, RowAt(d, r1, t), ColAt(d, c1, t)) && g[RowAt(d, r1, t)][ColAt(d, c1, t)] == p
        {
          assert RowAt(d, r1, t) == RowAt(d, r, t + 1) && ColAt(d, c1, t) == ColAt(d, c, t + 1);
        }
      }
    }
  }

  /** A run found by stepping cell to cell is exactly a fitting, uniform run. */
  lemma RunOfIffUniform(g: Grid, r: int, c: int, d: Direction, w: nat, p: int)
    requires w >= 1
    ensures RunOf(g, r, c, d, w, p) <==> Fits(g, r, c, d, w) && Uniform(g, r, c, d, w, p)
  {
    RunOfCells(g, r, c, d, w, p);
    if RunOf(g, r, c, d, w, p) {
      assert InGrid(g, RowAt(d, r, 0), ColAt(d, c, 0));
      assert InGrid(g, RowAt(d, r, w - 1), ColAt(d, c, w - 1));
    }
    if Fits(g, r, c, d, w) && Uniform(g, r, c, d, w, p) {
      forall t | 0 <= t < w
        ensures InGrid(g, RowAt(d, r, t), ColAt(d, c, t)) && g[RowAt(d, r, t)][ColAt(d, c, t)] == p
      {
        assert Segment(g, r, c, d, w)[t] == p;
      }
    }
  }

  lemma {:induction false} RunInRowIff(g: Grid, w: nat, r: int, c0: nat)
    ensures RunInRow(g, w, r, c0) <==> exists c :: c0 <= c < Width(g) && RunAt(g, w, r, c)
    decreases Width(g) - c0
  {
    if c0 < Width(g) {
      RunInRowIff(g, w, r, c0 + 1);
    }
  }

  lemma {:induction false} RunInRowsIff(g: Grid, w: nat, r0: nat)
    ensures RunInRows(g, w, r0) <==> exists r, c :: r0 <= r < |g| && 0 <= c < Width(g) && RunAt(g, w, r, c)
    decreases |g| - r0
  {
    if r0 < |g| {
      RunInRowIff(g, w, r0, 0);
      RunInRowsIff(g, w, r0 + 1);
      if exists r, c :: r0 <= r < |g| && 0 <= c < Width(g) && RunAt(g, w, r, c) {
        var r, c :| r0 <= r < |g| && 0 <= c < Width(g) && RunAt(g, w, r, c);
        if r > r0 {
          assert r0 + 1 <= r;
        }
      }
    }
  }

  /** On a token grid with a positive threshold, the board's line scan and
      the cell-by-cell scan agree. The latter is what the concrete positions
      of the tests are decided with. */
  lemma WonIffScan(g: Grid, w: nat)
    requires IsTokens(g) && w >= 1
    ensures Won(g, w) <==> RunInRows(g, w, 0)
  {
    WonIffConnected(g, w);
    RunInRowsIff(g, w, 0);
    if HasConnected(g, w) {
      var r, c, d :| Fits(g, r, c, d, w) && (Uniform(g, r, c, d, w, 1) || Uniform(g, r, c, d, w, -1));
      RunOfIffUniform(g, r, c, d, w, 1);
      RunOfIffUniform(g, r, c, d, w, -1);
      assert InGrid(g, RowAt(d, r, 0), ColAt(d, c, 0));
      assert RunAt(g, w, r, c);
    }
    if RunInRows(g, w, 0) {
      var r, c :| 0 <= r < |g| && 0 <= c < Width(g) && RunAt(g, w, r, c);
      forall d: Direction, p: int | RunOf(g, r, c, d, w, p)
        ensures Fits(g, r, c, d, w) && Uniform(g, r, c, d, w, p)
      {
        RunOfIffUniform(g, r, c, d, w, p);
      }
    }
  }
}
