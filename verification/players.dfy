/** Trainer policies. A policy is shown a grid and names a column. The
    round-robin `Sequential` player is the one the environment is exercised
    with; `Policy` stands for any other player whose choice is a function of
    the grid it is shown (a random player, a learned one). */
module Players {
  import opened Wrappers
  import opened Grids

  datatype Player =
    | Sequential(id: string, count: nat)
    | Policy(id: string, choose: Grid -> int)

  /** `get_action`. The sequential player answers its call counter modulo the
      width of the grid it is shown and counts the call; a grid with no
      columns makes that modulo fail, which is `None` here. */
  function GetAction(p: Player, state: Grid): (r: Option<(int, Player)>)
    ensures p.Sequential? ==> (r.Some? <==> Width(state) > 0)
    ensures p.Sequential? && r.Some? ==>
      && 0 <= r.value.0 < Width(state)
      && r.value.0 == p.count % Width(state)
      && r.value.1 == p.(count := p.count + 1)
    ensures p.Policy? ==> r.Some? && r.value.0 == p.choose(state) && r.value.1 == p
  {
    match p
    case Sequential(_, count) =>
      if Width(state) == 0 then None
      else Some((count % Width(state), p.(count := count + 1)))
    case Policy(_, choose) => Some((choose(state), p))
  }

  /** `get_available_cols`: the ascending indices of columns holding a 0.
      It is the same query as the board's `available_cols`
      (`Boards.AvailableCols`): both are `Grids.OpenColumns`. */
  function GetAvailableCols(state: Grid): (cs: seq<int>)
    ensures StrictlyIncreasing(cs)
    ensures forall x :: x in cs <==> 0 <= x < Width(state) && HasEmpty(state, x)
  {
    OpenColumns(state)
  }

  /** The default training hook keeps the player as it is. */
  function UpdateInternals(p: Player, nextState: Grid, state: Grid, action: int, reward: real, done: bool): (q: Player)
    ensures q == p
  {
    p
  }

  /** The actions of successive calls, one per grid shown, and the player
      after the last call. */
  function Replay(p: Player, states: seq<Grid>): (r: (seq<int>, Player))
    requires p.Sequential?
    requires forall i :: 0 <= i < |states| ==> Width(states[i]) > 0
    ensures |r.0| == |states| && r.1.Sequential?
    decreases |states|
  {
    if |states| == 0 then ([], p)
    else
      var step := GetAction(p, states[0]).value;
      var rest := Replay(step.1, states[1..]);
      ([step.0] + rest.0, rest.1)
  }

  /** Shown grids of one width `w`, the sequential player cycles through the
      columns in order, starting from its counter: the k-th answer is
      `(count + k) mod w`, and the counter grows by one per call. */
  lemma {:induction false} SequentialCycles(p: Player, states: seq<Grid>, w: nat)
    requires p.Sequential? && w > 0
    requires forall i :: 0 <= i < |states| ==> Width(states[i]) == w
    ensures Replay(p, states).1 == p.(count := p.count + |states|)
    ensures forall k :: 0 <= k < |states| ==> Replay(p, states).0[k] == (p.count + k) % w
    decreases |states|
  {
    if |states| > 0 {
      var step := GetAction(p, states[0]).value;
      var tail := states[1..];
      assert forall i :: 0 <= i < |tail| ==> tail[i] == states[i + 1];
      SequentialCycles(step.1, tail, w);
      var rest := Replay(step.1, tail);
      assert step.0 == p.count % w;
      forall k | 0 <= k < |states|
        ensures Replay(p, states).0[k] == (p.count + k) % w
      {
        if k > 0 {
          assert Replay(p, states).0[k] == rest.0[k - 1];
        }
      }
    }
  }

  /** The sequential player ignores the cells: it can name a column that is
      already full. */
  lemma SequentialIgnoresCells()
    ensures GetAction(Sequential("TST", 0), [[1]]).value.0 !in GetAvailableCols([[1]])
  {
    var g: Grid := [[1]];
    assert !HasEmpty(g, 0);
  }
}
