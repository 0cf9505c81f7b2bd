/** The automated opponent: which cells of the player's board it may fire at,
    and the shot it issues when it is its turn. */
module Opponent {
  import opened Wrappers
  import opened Board
  import opened Game

  /** A cell the opponent has not fired at yet. */
  predicate IsTarget(c: Cell) {
    c == Water || c == Boat
  }

  /** `p` comes before `q` in row-major order. */
  predicate Before(p: Coord, q: Coord) {
    p.x < q.x || (p.x == q.x && p.y < q.y)
  }

  predicate RowMajor(cs: seq<Coord>) {
    forall a, b :: 0 <= a < b < |cs| ==> Before(cs[a], cs[b])
  }

  /** Target cells among the first `n` cells of row `i`, left to right. */
  function RowTargets(g: Grid, i: int, n: int): (r: seq<Coord>)
    requires 0 <= i < |g| && 0 <= n <= |g[i]|
    ensures forall c :: c in r <==> c.x == i && 0 <= c.y < n && IsTarget(g[i][c.y])
    decreases n
  {
    if n == 0 then []
    else RowTargets(g, i, n - 1) + (if IsTarget(g[i][n - 1]) then [Coord(i, n - 1)] else [])
  }

  /** Target cells among the first `m` rows, in row-major order. */
  function Targets(g: Grid, m: int): (r: seq<Coord>)
    requires 0 <= m <= |g|
    ensures forall c :: c in r <==> 0 <= c.x < m && 0 <= c.y < |g[c.x]| && IsTarget(g[c.x][c.y])
    decreases m
  {
    if m == 0 then []
    else Targets(g, m - 1) + RowTargets(g, m - 1, |g[m - 1]|)
  }

  lemma {:induction false} RowTargetsRowMajor(g: Grid, i: int, n: int)
    requires 0 <= i < |g| && 0 <= n <= |g[i]|
    ensures RowMajor(RowTargets(g, i, n))
    decreases n
  {
    if n > 0 {
      RowTargetsRowMajor(g, i, n - 1);
      var front := RowTargets(g, i, n - 1);
      assert forall a :: 0 <= a < |front| ==> front[a] in front;
    }
  }

  /** The candidate list is in row-major order, hence free of repeats. */
  lemma {:induction false} TargetsRowMajor(g: Grid, m: int)
    requires 0 <= m <= |g|
    ensures RowMajor(Targets(g, m))
    decreases m
  {
    if m > 0 {
      TargetsRowMajor(g, m - 1);
      RowTargetsRowMajor(g, m - 1, |g[m - 1]|);
      var front, row := Targets(g, m - 1), RowTargets(g, m - 1, |g[m - 1]|);
      assert forall a :: 0 <= a < |front| ==> front[a] in front;
      assert forall b :: 0 <= b < |row| ==> row[b] in row;
    }
  }

  /** Collects the candidate cells as the game service does: every cell of
      every row, in order, kept when it shows water or boat. */
  method Candidates(g: Grid) returns (cs: seq<Coord>)
    ensures cs == Targets(g, |g|)
  {
    cs := [];
    var i := 0;
    while i < |g|
      invariant 0 <= i <= |g|
      invariant cs == Targets(g, i)
    {
      var j := 0;
      while j < |g[i]|
        invariant 0 <= j <= |g[i]|
        invariant cs == Targets(g, i) + RowTargets(g, i, j)
      {
        if g[i][j] == Water || g[i][j] == Boat {
          cs := cs + [Coord(i, j)];
        }
        j := j + 1;
      }
      i := i + 1;
    }
  }

  /** The opponent's move on a published state. It acts only on its own
      turn, and fires at the candidate chosen by the draw `pick` (reduced
      modulo the number of candidates); with no candidate left it issues
      nothing. */
  function OpponentShot(s: State, pick: nat): (r: Option<ShotOrder>)
    ensures r.Some? ==> r.value.orderFrom == Opponent
    ensures r.Some? ==> InGrid(s.player.grid, r.value.at) && IsTarget(s.player.grid[r.value.at.x][r.value.at.y])
    ensures r.None? <==>
      s.turn != Opponent || forall c :: InGrid(s.player.grid, c) ==> !IsTarget(s.player.grid[c.x][c.y])
  {
    if s.turn != Opponent then None
    else
      var cs := Targets(s.player.grid, |s.player.grid|);
      if |cs| == 0 then None
      else
        assert cs[0] in cs;
        Some(ShotOrder(Opponent, cs[pick % |cs|]))
  }

  /** Position of a target cell in the candidate list. */
  lemma TargetIndex(g: Grid, c: Coord) returns (a: nat)
    requires InGrid(g, c) && IsTarget(g[c.x][c.y])
    ensures a < |Targets(g, |g|)| && Targets(g, |g|)[a] == c
  {
    var cs := Targets(g, |g|);
    assert c in cs;
    a :| 0 <= a < |cs| && cs[a] == c;
  }

  /** Every unshot cell of the player's board can be chosen by some draw. */
  lemma EveryTargetReachable(s: State, c: Coord) returns (pick: nat)
    requires s.turn == Opponent && InGrid(s.player.grid, c) && IsTarget(s.player.grid[c.x][c.y])
    ensures OpponentShot(s, pick) == Some(ShotOrder(Opponent, c))
  {
    pick := TargetIndex(s.player.grid, c);
    var cs := Targets(s.player.grid, |s.player.grid|);
    ModSmall(pick, |cs|);
  }

  /** A draw already below the number of candidates selects itself; kept as
      a lemma so the reachability proof stays small. */
  lemma ModSmall(a: nat, b: nat)
    requires a < b
    ensures a % b == a
  {
  }

  /** On a consistent board, a cell is a target exactly when the opponent
      has not fired at it yet. */
  lemma TargetIffNotShot(p: Participant, c: Coord)
    requires Consistent(p) && OnBoard(c)
    ensures IsTarget(p.grid[c.x][c.y]) <==> c !in p.data.shots
  {
    ConsistentCells(p, c);
  }

  /** The opponent's shot on a consistent state is accepted, targets a cell
      of the player's board never fired at before, and hands the turn back
      to the player. */
  lemma OpponentShotAccepted(s: State, pick: nat)
    requires ConsistentState(s)
    ensures OpponentShot(s, pick).Some? ==>
      var order := OpponentShot(s, pick).value;
      && OnBoard(order.at)
      && order.at !in s.player.data.shots
      && Shoot(s, order).status == OK
      && Shoot(s, order).next.Some?
      && Shoot(s, order).next.value.turn == Player
      && Shoot(s, order).next.value.player.data.shots == s.player.data.shots + [order.at]
  {
    if OpponentShot(s, pick).None? {
      return;
    }
    var order := OpponentShot(s, pick).value;
    ConsistentCells(s.player, Coord(0, 0));
    assert OnBoard(order.at);
    TargetIffNotShot(s.player, order.at);
    assert s.turn == Opponent;
    LegalShotProcessed(s, order);
  }
}
