/** Vocabulary shared by every part of the rules engine: the square board,
    coordinates, the four visible cell states and boat rectangles. */
module Board {

  /** Side length of the board. */
  const N: int := 10

  /** What one cell of a player's board shows. `Water` and `Boat` have not
      been fired at; `Missed` and `Touched` have. */
  datatype Cell = Water | Missed | Boat | Touched

  /** A cell that has already been fired at. */
  predicate IsShot(c: Cell) {
    c == Missed || c == Touched
  }

  /** A cell a boat sits on, whether hit or not. */
  predicate IsAfloat(c: Cell) {
    c == Boat || c == Touched
  }

  /** Rows of cells. The engine's grids are N×N, but the cell-shot update
      works on any shape. */
  type Grid = seq<seq<Cell>>

  /** A (row, column) pair, 0-indexed. */
  datatype Coord = Coord(x: int, y: int)

  /** A boat: the rectangle from its upper-left to its lower-right corner,
      both included. */
  datatype Ship = Ship(upperLeft: Coord, lowerRight: Coord)

  predicate OnBoard(c: Coord) {
    0 <= c.x < N && 0 <= c.y < N
  }

  /** `c` names a cell of `g`, whatever the shape of `g`. */
  predicate InGrid(g: Grid, c: Coord) {
    0 <= c.x < |g| && 0 <= c.y < |g[c.x]|
  }

  predicate IsBoardGrid(g: Grid) {
    |g| == N && forall i :: 0 <= i < N ==> |g[i]| == N
  }

  predicate ShipOnBoard(b: Ship) {
    0 <= b.upperLeft.x && 0 <= b.upperLeft.y && b.lowerRight.x < N && b.lowerRight.y < N
  }

  predicate Covers(b: Ship, c: Coord) {
    b.upperLeft.x <= c.x <= b.lowerRight.x && b.upperLeft.y <= c.y <= b.lowerRight.y
  }

  /** Some ship of the list covers `c`. */
  predicate Occupied(ships: seq<Ship>, c: Coord) {
    exists k :: 0 <= k < |ships| && Covers(ships[k], c)
  }

  lemma OccupiedAppend(ships: seq<Ship>, b: Ship, c: Coord)
    ensures Occupied(ships + [b], c) <==> Occupied(ships, c) || Covers(b, c)
  {
    var all := ships + [b];
    if Occupied(ships, c) {
      var k :| 0 <= k < |ships| && Covers(ships[k], c);
      assert all[k] == ships[k];
    }
    if Covers(b, c) {
      assert all[|ships|] == b;
    }
    if Occupied(all, c) {
      var k :| 0 <= k < |all| && Covers(all[k], c);
      if k < |ships| {
        assert all[k] == ships[k];
      }
    }
  }

  /** Two grids of the same shape that agree on every cell are equal. */
  lemma GridExt(a: Grid, b: Grid)
    requires |a| == |b|
    requires forall i :: 0 <= i < |a| ==> |a[i]| == |b[i]|
    requires forall i, j :: 0 <= i < |a| && 0 <= j < |a[i]| ==> a[i][j] == b[i][j]
    ensures a == b
  {
    forall i | 0 <= i < |a|
      ensures a[i] == b[i]
    {
      assert forall j :: 0 <= j < |a[i]| ==> a[i][j] == b[i][j];
    }
  }
}
