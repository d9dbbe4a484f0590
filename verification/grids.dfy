/** The playing grid: a rectangular matrix of cell values, row 0 at the top and
    row `|g| - 1` at the bottom (the row gravity fills first). A cell holds 0
    when empty and +1 or -1 for the two players' tokens. Everything here is a
    pure transformation or query of such a matrix. */
module Grids {

  /** Number of columns; a grid with no rows has no columns. */
  function Width(g: seq<seq<int>>): nat {
    if |g| == 0 then 0 else |g[0]|
  }

  predicate Rectangular(g: seq<seq<int>>) {
    forall i :: 0 <= i < |g| ==> |g[i]| == Width(g)
  }

  /** A two-dimensional array: every row has the same length. */
  type Grid = g: seq<seq<int>> | Rectangular(g) witness []

  predicate InGrid(g: Grid, r: int, c: int) {
    0 <= r < |g| && 0 <= c < Width(g)
  }

  predicate SameShape(g: Grid, h: Grid) {
    |g| == |h| && Width(g) == Width(h)
  }

  /** Every cell is empty or one of the two tokens. */
  ghost predicate IsTokens(g: Grid) {
    forall r, c :: InGrid(g, r, c) ==> -1 <= g[r][c] <= 1
  }

  /** An all-empty grid of the given shape (`np.zeros`). */
  function Zeros(rows: nat, cols: nat): (g: Grid)
    ensures |g| == rows
    ensures rows > 0 ==> Width(g) == cols
    ensures forall r, c :: InGrid(g, r, c) ==> g[r][c] == 0
  {
    seq(rows, _ => seq(cols, _ => 0))
  }

  /** Elementwise negation of a sequence of cells. */
  function NegateLine(s: seq<int>): (n: seq<int>)
    ensures |n| == |s|
    ensures forall i :: 0 <= i < |s| ==> n[i] == -s[i]
  {
    seq(|s|, i requires 0 <= i < |s| => -s[i])
  }

  /** Elementwise negation of the grid (`b_array * -1`): the same position seen
      from the other player's side. */
  function Negate(g: Grid): (n: Grid)
    ensures SameShape(n, g)
    ensures forall r, c :: InGrid(g, r, c) ==> n[r][c] == -g[r][c]
  {
    seq(|g|, r requires 0 <= r < |g| => NegateLine(g[r]))
  }

  /** The transposed grid (`b_array.T`): row `c` of the result is column `c`. */
  function Transpose(g: Grid): (t: Grid)
    ensures |t| == Width(g)
    ensures Width(g) > 0 ==> Width(t) == |g|
    ensures forall r, c :: InGrid(g, r, c) ==> t[c][r] == g[r][c]
  {
    seq(Width(g), c requires 0 <= c < Width(g) =>
      seq(|g|, r requires 0 <= r < |g| => g[r][c]))
  }

  /** The grid mirrored left to right (`np.fliplr`). */
  function FlipLR(g: Grid): (f: Grid)
    ensures SameShape(f, g)
    ensures forall r, c :: InGrid(g, r, c) ==> f[r][c] == g[r][Width(g) - 1 - c]
  {
    seq(|g|, r requires 0 <= r < |g| =>
      seq(Width(g), c requires 0 <= c < Width(g) => g[r][Width(g) - 1 - c]))
  }

  /** The grid with one cell overwritten. */
  function SetCell(g: Grid, r: int, c: int, v: int): (h: Grid)
    requires InGrid(g, r, c)
    ensures SameShape(h, g)
    ensures h[r][c] == v
    ensures forall i, j :: InGrid(g, i, j) && (i != r || j != c) ==> h[i][j] == g[i][j]
  {
    g[r := g[r][c := v]]
  }

  /** Number of nonzero cells of a line (`np.count_nonzero`). It reaches the
      length of the line exactly when no cell is empty. */
  function CountNonzero(s: seq<int>): (n: nat)
    ensures n <= |s|
    ensures n == |s| <==> forall i :: 0 <= i < |s| ==> s[i] != 0
  {
    if |s| == 0 then 0
    else
      var rest := CountNonzero(s[1..]);
      assert forall i :: 1 <= i < |s| ==> s[i] == s[1..][i - 1];
      (if s[0] != 0 then 1 else 0) + rest
  }

  /** Number of nonzero cells in the first `n` rows of the grid. */
  function CountNonzeroRows(g: Grid, n: nat): (k: nat)
    requires n <= |g|
    ensures k <= n * Width(g)
    ensures k == n * Width(g) <==> forall r, c :: 0 <= r < n && 0 <= c < Width(g) ==> g[r][c] != 0
  {
    if n == 0 then 0
    else
      var before := CountNonzeroRows(g, n - 1);
      var last := CountNonzero(g[n - 1]);
      assert n * Width(g) == (n - 1) * Width(g) + Width(g);
      before + last
  }

  /** True when column `c` still holds an empty cell. */
  predicate HasEmpty(g: Grid, c: int)
    requires 0 <= c < Width(g)
  {
    exists r :: 0 <= r < |g| && g[r][c] == 0
  }

  predicate StrictlyIncreasing(s: seq<int>) {
    forall i, j :: 0 <= i < j < |s| ==> s[i] < s[j]
  }

  /** The open columns among `c, c + 1, ...`: those whose count of nonzero
      cells is below the column length. */
  function OpenColumnsFrom(g: Grid, c: nat): (cs: seq<int>)
    requires c <= Width(g)
    ensures StrictlyIncreasing(cs)
    ensures forall x :: x in cs <==> c <= x < Width(g) && HasEmpty(g, x)
    decreases Width(g) - c
  {
    if c == Width(g) then []
    else
      var column := Transpose(g)[c];
      var rest := OpenColumnsFrom(g, c + 1);
      assert CountNonzero(column) < |column| <==> HasEmpty(g, c) by {
        assert forall r :: 0 <= r < |g| ==> column[r] == g[r][c];
      }
      forall j | 0 <= j < |rest|
        ensures rest[j] > c
      {
        assert rest[j] in rest;
      }
      if CountNonzero(column) < |column| then [c] + rest else rest
  }

  /** The ascending indices of the columns that are not completely filled
      (`available_cols`, `get_available_cols`). */
  function OpenColumns(g: Grid): (cs: seq<int>)
    ensures StrictlyIncreasing(cs)
    ensures forall x :: x in cs <==> 0 <= x < Width(g) && HasEmpty(g, x)
  {
    OpenColumnsFrom(g, 0)
  }

  lemma NegateInvolutive(g: Grid)
    ensures Negate(Negate(g)) == g
  {
    var n := Negate(Negate(g));
    assert |n| == |g|;
    forall r | 0 <= r < |g|
      ensures n[r] == g[r]
    {
      assert |n[r]| == Width(g) == |g[r]|;
      forall c | 0 <= c < |g[r]|
        ensures n[r][c] == g[r][c]
      {
        assert InGrid(g, r, c);
      }
    }
  }

  /** A strictly increasing sequence is determined by its elements, so any
      ascending list of exactly the open columns is `OpenColumns`. */
  lemma {:induction false} IncreasingUnique(a: seq<int>, b: seq<int>)
    requires StrictlyIncreasing(a) && StrictlyIncreasing(b)
    requires forall x :: x in a <==> x in b
    ensures a == b
    decreases |a|
  {
    if |a| > 0 { assert a[0] in a; }
    if |b| > 0 { assert b[0] in b; }
    if |a| > 0 && |b| > 0 {
      var i :| 0 <= i < |b| && b[i] == a[0];
      var j :| 0 <= j < |a| && a[j] == b[0];
      assert a[0] == b[0];
      var ta, tb := a[1..], b[1..];
      forall x
        ensures x in ta <==> x in tb
      {
        if x in ta {
          var k :| 0 <= k < |ta| && ta[k] == x;
          assert a[k + 1] == x && x in b;
          var m :| 0 <= m < |b| && b[m] == x;
          assert m != 0;
          assert tb[m - 1] == x;
        }
        if x in tb {
          var k :| 0 <= k < |tb| && tb[k] == x;
          assert b[k + 1] == x && x in a;
          var m :| 0 <= m < |a| && a[m] == x;
          assert m != 0;
          assert ta[m - 1] == x;
        }
      }
      IncreasingUnique(ta, tb);
      assert a == [a[0]] + ta && b == [b[0]] + tb;
    }
  }
}
