/** From a fleet (and the shots it received) to the grid an opponent sees. */
module Projection {
  import opened Wrappers
  import opened Board
  import opened Shots

  /** The grid of a fleet before any shot: `Boat` where some ship lies,
      `Water` elsewhere. */
  function Projected(ships: seq<Ship>): (g: Grid)
    ensures IsBoardGrid(g)
  {
    seq(N, i => seq(N, j => if Occupied(ships, Coord(i, j)) then Boat else Water))
  }

  /** Paints every cell of one boat rectangle `Boat`, row by row, column by
      column, leaving the other cells as they were. */
  method PaintShip(g0: Grid, b: Ship) returns (g: Grid)
    requires IsBoardGrid(g0) && ShipOnBoard(b)
    ensures IsBoardGrid(g)
    ensures forall p, q :: 0 <= p < N && 0 <= q < N ==>
      g[p][q] == (if Covers(b, Coord(p, q)) then Boat else g0[p][q])
  {
    g := g0;
    var i := b.upperLeft.x;
    while i <= b.lowerRight.x
      invariant b.upperLeft.x <= i && (i <= b.lowerRight.x + 1 || i == b.upperLeft.x)
      invariant IsBoardGrid(g)
      invariant forall p, q :: 0 <= p < N && 0 <= q < N ==>
        g[p][q] == (if b.upperLeft.x <= p < i && b.upperLeft.y <= q <= b.lowerRight.y
                    then Boat else g0[p][q])
    {
      var j := b.upperLeft.y;
      while j <= b.lowerRight.y
        invariant b.upperLeft.y <= j && (j <= b.lowerRight.y + 1 || j == b.upperLeft.y)
        invariant IsBoardGrid(g)
        invariant forall p, q :: 0 <= p < N && 0 <= q < N ==>
          g[p][q] == (if (b.upperLeft.x <= p < i && b.upperLeft.y <= q <= b.lowerRight.y)
                         || (p == i && b.upperLeft.y <= q < j)
                      then Boat else g0[p][q])
      {
        g := g[i := g[i][j := Boat]];
        j := j + 1;
      }
      i := i + 1;
    }
  }

  /** Builds the N×N grid of a fleet as the game service does: all water,
      then every boat rectangle painted `Boat`, boat by boat. */
  method GridFromBoats(ships: seq<Ship>) returns (g: Grid)
    requires forall k :: 0 <= k < |ships| ==> ShipOnBoard(ships[k])
    ensures IsBoardGrid(g)
    ensures forall i, j :: 0 <= i < N && 0 <= j < N ==>
      (g[i][j] == Boat <==> Occupied(ships, Coord(i, j)))
    ensures forall i, j :: 0 <= i < N && 0 <= j < N ==>
      (g[i][j] == Water <==> !Occupied(ships, Coord(i, j)))
    ensures g == Projected(ships)
  {
    g := seq(N, _ => seq(N, _ => Water));
    GridExt(g, Projected([]));
    var k := 0;
    while k < |ships|
      invariant 0 <= k <= |ships|
      invariant g == Projected(ships[..k])
    {
      var b := ships[k];
      var painted := PaintShip(g, b);
      assert ships[..k + 1] == ships[..k] + [b];
      forall p, q | 0 <= p < N && 0 <= q < N
        ensures Occupied(ships[..k + 1], Coord(p, q)) <==> Occupied(ships[..k], Coord(p, q)) || Covers(b, Coord(p, q))
      {
        OccupiedAppend(ships[..k], b, Coord(p, q));
      }
      GridExt(painted, Projected(ships[..k + 1]));
      g := painted;
      k := k + 1;
    }
    assert ships[..k] == ships;
  }

  /** What a cell shows, given whether a boat lies on it and whether it was
      fired at. */
  function Seen(afloat: bool, shot: bool): Cell {
    if shot then (if afloat then Touched else Missed)
    else (if afloat then Boat else Water)
  }

  /** The grid of a fleet after the shots it received, in order: the fleet's
      grid with `Fire` applied once per shot. */
  function Project(ships: seq<Ship>, shots: seq<Coord>): (r: Option<Grid>)
    ensures r.Some? <==> forall c :: c in shots ==> 0 <= c.x < N
    ensures r.Some? ==> IsBoardGrid(r.value)
    ensures r.Some? ==> forall i, j :: 0 <= i < N && 0 <= j < N ==>
      r.value[i][j] == Seen(Occupied(ships, Coord(i, j)), Coord(i, j) in shots)
    decreases |shots|
  {
    if |shots| == 0 then Some(Projected(ships))
    else
      var prefix, last := shots[..|shots| - 1], shots[|shots| - 1];
      assert shots == prefix + [last];
      match Project(ships, prefix)
      case None => None
      case Some(g) => Fire(g, last)
  }

  /** The grid depends only on which cells were shot, not on the order of
      the shots or on repeats. */
  lemma SameShotCellsSameGrid(ships: seq<Ship>, s1: seq<Coord>, s2: seq<Coord>)
    requires forall c :: c in s1 <==> c in s2
    ensures Project(ships, s1) == Project(ships, s2)
  {
    var r1, r2 := Project(ships, s1), Project(ships, s2);
    if r1.Some? {
      assert r2.Some?;
      GridExt(r1.value, r2.value);
    }
  }

  /** Firing again at a cell already fired at records nothing new on the grid. */
  lemma RepeatShotNoEffect(ships: seq<Ship>, shots: seq<Coord>, c: Coord)
    requires c in shots
    ensures Project(ships, shots + [c]) == Project(ships, shots)
  {
    SameShotCellsSameGrid(ships, shots + [c], shots);
  }
}
