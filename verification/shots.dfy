/** The cell-shot update: firing at one coordinate of a grid. */
module Shots {
  import opened Wrappers
  import opened Board

  /** The value a cell takes once fired at: a boat becomes touched, water
      becomes missed, a cell already fired at keeps its value. */
  function Hit(c: Cell): (r: Cell)
    ensures IsShot(r)
    ensures IsAfloat(r) <==> IsAfloat(c)
    ensures IsShot(c) ==> r == c
  {
    match c
    case Boat => Touched
    case Water => Missed
    case _ => c
  }

  /** Fires at `at`. A row index outside the grid has no row to read, so the
      update fails (`None`). A column outside its row matches no cell, so the
      grid comes back unchanged. Otherwise only the target cell changes. */
  function Fire(g: Grid, at: Coord): (r: Option<Grid>)
    ensures r.None? <==> !(0 <= at.x < |g|)
    ensures r.Some? ==> |r.value| == |g| && forall i :: 0 <= i < |g| ==> |r.value[i]| == |g[i]|
    ensures r.Some? ==> forall i, j :: 0 <= i < |g| && 0 <= j < |g[i]| ==>
      r.value[i][j] == (if i == at.x && j == at.y then Hit(g[i][j]) else g[i][j])
  {
    if !(0 <= at.x < |g|) then None
    else if 0 <= at.y < |g[at.x]| then Some(g[at.x := g[at.x][at.y := Hit(g[at.x][at.y])]])
    else Some(g)
  }

  /** Firing twice at the same coordinate gives the grid of firing once. */
  lemma FireIdempotent(g: Grid, at: Coord)
    requires Fire(g, at).Some?
    ensures Fire(Fire(g, at).value, at) == Fire(g, at)
  {
    var once := Fire(g, at).value;
    var twice := Fire(once, at).value;
    GridExt(twice, once);
  }

  /** The order of two shots does not matter. */
  lemma FireCommutes(g: Grid, a: Coord, b: Coord)
    requires Fire(g, a).Some? && Fire(g, b).Some?
    ensures Fire(Fire(g, a).value, b).Some? && Fire(Fire(g, b).value, a).Some?
    ensures Fire(Fire(g, a).value, b).value == Fire(Fire(g, b).value, a).value
  {
    var ab := Fire(Fire(g, a).value, b).value;
    var ba := Fire(Fire(g, b).value, a).value;
    GridExt(ab, ba);
  }

  /** Firing never un-shoots a cell and never moves a boat. */
  lemma FireMonotone(g: Grid, at: Coord, c: Coord)
    requires Fire(g, at).Some? && InGrid(g, c)
    ensures IsShot(g[c.x][c.y]) ==> IsShot(Fire(g, at).value[c.x][c.y])
    ensures IsAfloat(Fire(g, at).value[c.x][c.y]) <==> IsAfloat(g[c.x][c.y])
  {
  }
}
