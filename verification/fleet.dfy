/** Random fleet placement. Randomness is an input: a finite sequence of
    draws, each reduced into the range the game service asks for. */
module Fleet {
  import opened Wrappers
  import opened Board

  /** Boat sizes of one fleet, in placement order. */
  const Sizes: seq<int> := [5, 4, 3, 3, 3, 2, 2, 2, 1, 1]

  /** The four directions a boat may extend from its anchor, in the order
      the service lists them: (1,0), (-1,0), (0,1), (0,-1). */
  datatype Dir = Down | Up | Right | Left

  const Directions: seq<Dir> := [Down, Up, Right, Left]

  /** The n-th cell of the run leaving (x, y) in direction d: (x + n·dx, y + n·dy). */
  function RunCell(x: int, y: int, d: Dir, n: int): Coord {
    match d
    case Down => Coord(x + n, y)
    case Up => Coord(x - n, y)
    case Right => Coord(x, y + n)
    case Left => Coord(x, y - n)
  }

  /** `c` is one of the first `s` cells of the run. */
  ghost predicate InRun(x: int, y: int, d: Dir, s: int, c: Coord) {
    exists n :: 0 <= n < s && RunCell(x, y, d, n) == c
  }

  function Min(a: int, b: int): int { if a <= b then a else b }
  function Max(a: int, b: int): int { if a <= b then b else a }

  /** A straight boat one cell wide and `size` cells long, corners ordered. */
  predicate WellShaped(b: Ship, size: int) {
    && b.upperLeft.x <= b.lowerRight.x
    && b.upperLeft.y <= b.lowerRight.y
    && ((b.upperLeft.x == b.lowerRight.x && b.lowerRight.y - b.upperLeft.y + 1 == size)
        || (b.upperLeft.y == b.lowerRight.y && b.lowerRight.x - b.upperLeft.x + 1 == size))
  }

  /** No cell lies in both boats. */
  ghost predicate Disjoint(a: Ship, b: Ship) {
    forall c :: !(Covers(a, c) && Covers(b, c))
  }

  /** The first |ships| boats of a fleet: each of its size, on the board,
      and no two sharing a cell. */
  ghost predicate PartialFleet(ships: seq<Ship>) {
    && |ships| <= |Sizes|
    && (forall k :: 0 <= k < |ships| ==> WellShaped(ships[k], Sizes[k]) && ShipOnBoard(ships[k]))
    && (forall k, l :: 0 <= k < l < |ships| ==> Disjoint(ships[k], ships[l]))
  }

  ghost predicate ValidFleet(ships: seq<Ship>) {
    |ships| == |Sizes| && PartialFleet(ships)
  }

  /** The occupancy array marks exactly the cells of the placed boats. */
  ghost predicate Mirrors(occ: array2<bool>, ships: seq<Ship>)
    reads occ
  {
    && occ.Length0 == N && occ.Length1 == N
    && forall i, j :: 0 <= i < N && 0 <= j < N ==> (occ[i, j] <==> Occupied(ships, Coord(i, j)))
  }

  /** `c` is on the board and not yet occupied. */
  ghost predicate Free(occ: array2<bool>, c: Coord)
    reads occ
  {
    occ.Length0 == N && occ.Length1 == N && OnBoard(c) && !occ[c.x, c.y]
  }

  lemma SizesPositive(t: int)
    requires 0 <= t < |Sizes|
    ensures 1 <= Sizes[t] <= N
  {
  }

  /** The boat recorded for a run of `s` cells: the rectangle between the
      anchor and the far end, corners normalised by min and max. */
  function Extent(x: int, y: int, d: Dir, s: int): (b: Ship)
    requires s >= 1
    ensures WellShaped(b, s)
  {
    var e := RunCell(x, y, d, s - 1);
    Ship(Coord(Min(x, e.x), Min(y, e.y)), Coord(Max(x, e.x), Max(y, e.y)))
  }

  /** The normalised rectangle covers exactly the cells of the run. */
  lemma ExtentIsRun(x: int, y: int, d: Dir, s: int)
    requires s >= 1
    ensures forall c :: Covers(Extent(x, y, d, s), c) <==> InRun(x, y, d, s, c)
  {
    forall c
      ensures Covers(Extent(x, y, d, s), c) <==> InRun(x, y, d, s, c)
    {
      if Covers(Extent(x, y, d, s), c) {
        var n := match d
          case Down => c.x - x
          case Up => x - c.x
          case Right => c.y - y
          case Left => y - c.y;
        assert RunCell(x, y, d, n) == c;
      }
      if InRun(x, y, d, s, c) {
        var n :| 0 <= n < s && RunCell(x, y, d, n) == c;
      }
    }
  }

  lemma InRunStep(x: int, y: int, d: Dir, n: int, c: Coord)
    requires n >= 0
    ensures InRun(x, y, d, n + 1, c) <==> InRun(x, y, d, n, c) || RunCell(x, y, d, n) == c
  {
    if InRun(x, y, d, n + 1, c) {
      var m :| 0 <= m < n + 1 && RunCell(x, y, d, m) == c;
      if m < n {
        assert InRun(x, y, d, n, c);
      }
    }
  }

  /** Whether all `s` cells of the run from (x, y) in direction d are on the
      board and unoccupied (the service's reduce over 0..s-1, where a cell
      off the board reads as not free). */
  method RunFree(occ: array2<bool>, x: int, y: int, d: Dir, s: int) returns (free: bool)
    requires occ.Length0 == N && occ.Length1 == N && s >= 0
    ensures free <==> forall n :: 0 <= n < s ==> Free(occ, RunCell(x, y, d, n))
  {
    free := true;
    var n := 0;
    while n < s
      invariant 0 <= n <= s
      invariant free <==> forall m :: 0 <= m < n ==> Free(occ, RunCell(x, y, d, m))
    {
      var c := RunCell(x, y, d, n);
      free := free && 0 <= c.x < N && 0 <= c.y < N && !occ[c.x, c.y];
      n := n + 1;
    }
  }

  /** Marks the cells of a run as occupied. */
  method MarkRun(occ: array2<bool>, ghost ships: seq<Ship>, x: int, y: int, d: Dir, s: int)
    requires Mirrors(occ, ships) && s >= 1
    requires forall n :: 0 <= n < s ==> OnBoard(RunCell(x, y, d, n))
    modifies occ
    ensures Mirrors(occ, ships + [Extent(x, y, d, s)])
  {
    var n := 0;
    while n < s
      invariant 0 <= n <= s
      invariant forall i, j :: 0 <= i < N && 0 <= j < N ==>
        (occ[i, j] <==> Occupied(ships, Coord(i, j)) || InRun(x, y, d, n, Coord(i, j)))
    {
      var c := RunCell(x, y, d, n);
      occ[c.x, c.y] := true;
      forall i, j | 0 <= i < N && 0 <= j < N
        ensures InRun(x, y, d, n + 1, Coord(i, j)) <==> InRun(x, y, d, n, Coord(i, j)) || c == Coord(i, j)
      {
        InRunStep(x, y, d, n, Coord(i, j));
      }
      n := n + 1;
    }
    var b := Extent(x, y, d, s);
    ExtentIsRun(x, y, d, s);
    forall i, j | 0 <= i < N && 0 <= j < N
      ensures Occupied(ships + [b], Coord(i, j)) <==> Occupied(ships, Coord(i, j)) || Covers(b, Coord(i, j))
    {
      OccupiedAppend(ships, b, Coord(i, j));
    }
  }

  /** A boat laid on a free run keeps the fleet on the board and disjoint. */
  lemma AddShip(occ: array2<bool>, ships: seq<Ship>, x: int, y: int, d: Dir, s: int)
    requires Mirrors(occ, ships) && PartialFleet(ships)
    requires |ships| < |Sizes| && s == Sizes[|ships|] && s >= 1
    requires forall n :: 0 <= n < s ==> Free(occ, RunCell(x, y, d, n))
    ensures PartialFleet(ships + [Extent(x, y, d, s)])
  {
    var b := Extent(x, y, d, s);
    ExtentIsRun(x, y, d, s);
    assert Covers(b, b.upperLeft) && Covers(b, b.lowerRight);
    forall q | 0 <= q < |ships|
      ensures Disjoint(ships[q], b)
    {
      forall c
        ensures !(Covers(ships[q], c) && Covers(b, c))
      {
        if Covers(b, c) {
          var n :| 0 <= n < s && RunCell(x, y, d, n) == c;
          assert Free(occ, c);
          assert !Occupied(ships, c);
        }
      }
    }
    var all := ships + [b];
    assert forall k :: 0 <= k < |ships| ==> all[k] == ships[k];
  }

  /** The draw sequence that lays boat t rightwards from (t, 0): anchor
      draws t and 0, then the draw 2, which picks `Right` among the four
      directions. */
  ghost function RowDraw(i: int): nat {
    if i % 3 == 0 then (if i >= 0 then i / 3 else 0) else if i % 3 == 1 then 0 else 2
  }

  ghost predicate RowDraws(rand: seq<nat>) {
    |rand| >= 3 * |Sizes| && forall i :: 0 <= i < 3 * |Sizes| ==> rand[i] == RowDraw(i)
  }

  /** Boat q lies in row q. */
  ghost predicate InRows(ships: seq<Ship>) {
    forall q :: 0 <= q < |ships| ==> ships[q].upperLeft.x == q && ships[q].lowerRight.x == q
  }

  /** The three draws for boat t give the anchor (t, 0) and direction `Right`. */
  lemma RowDrawsFor(rand: seq<nat>, t: int)
    requires RowDraws(rand) && 0 <= t < |Sizes|
    ensures rand[3 * t] % N == t && rand[3 * t + 1] % N == 0 && rand[3 * t + 2] % |Directions| == 2
    ensures Directions[2] == Right
  {
    assert rand[3 * t] == RowDraw(3 * t);
    assert rand[3 * t + 1] == RowDraw(3 * t + 1);
    assert rand[3 * t + 2] == RowDraw(3 * t + 2);
  }

  /** When boat q lies in row q for every earlier boat, row t is empty, so
      the run of s cells rightwards from (t, 0) is free. */
  lemma RowFree(occ: array2<bool>, ships: seq<Ship>, t: int, s: int)
    requires Mirrors(occ, ships) && InRows(ships) && |ships| == t
    requires 0 <= t < N && s <= N
    ensures forall n :: 0 <= n < s ==> Free(occ, RunCell(t, 0, Right, n))
  {
    forall n | 0 <= n < s
      ensures Free(occ, RunCell(t, 0, Right, n))
    {
      var c := RunCell(t, 0, Right, n);
      assert forall q :: 0 <= q < |ships| ==> !Covers(ships[q], c);
    }
  }

  /** On the draws `RowDraws`, the anchor drawn for boat t is (t, 0), and it
      is free. */
  lemma RowAnchorFree(rand: seq<nat>, occ: array2<bool>, ships: seq<Ship>, t: int)
    requires RowDraws(rand) && Mirrors(occ, ships) && InRows(ships) && |ships| == t < |Sizes|
    ensures 3 * t + 2 <= |rand| && rand[3 * t] % N == t && rand[3 * t + 1] % N == 0 && !occ[t, 0]
  {
    RowDrawsFor(rand, t);
    RowFree(occ, ships, t, 1);
    assert RunCell(t, 0, Right, 0) == Coord(t, 0);
  }

  /** Laying the boat rightwards from (t, 0) keeps boat q in row q. */
  lemma InRowsAppend(ships: seq<Ship>, t: int, s: int)
    requires InRows(ships) && |ships| == t && s >= 1
    ensures InRows(ships + [Extent(t, 0, Right, s)])
  {
    var all := ships + [Extent(t, 0, Right, s)];
    assert forall q :: 0 <= q < |ships| ==> all[q] == ships[q];
  }

  /** Every cell of the run of s cells leaving (x, y) in direction d is
      on the board and unoccupied. */
  ghost predicate RunOpen(occ: array2<bool>, x: int, y: int, d: Dir, s: int)
    reads occ
  {
    forall n :: 0 <= n < s ==> Free(occ, RunCell(x, y, d, n))
  }

  /** No direction occurs twice in ds. */
  ghost predicate Distinct(ds: seq<Dir>) {
    forall a, b :: 0 <= a < b < |ds| ==> ds[a] != ds[b]
  }

  /** Removing the entry at pos from distinct directions removes exactly
      that direction. */
  lemma RemoveAt(ds: seq<Dir>, pos: int)
    requires Distinct(ds) && 0 <= pos < |ds|
    ensures Distinct(ds[..pos] + ds[pos + 1..])
    ensures forall e :: e in ds[..pos] + ds[pos + 1..] <==> e in ds && e != ds[pos]
  {
    var rest := ds[..pos] + ds[pos + 1..];
    assert forall i :: 0 <= i < |rest| ==> rest[i] == ds[if i < pos then i else i + 1];
    forall e | e in ds && e != ds[pos]
      ensures e in rest
    {
      var i :| 0 <= i < |ds| && ds[i] == e;
      assert rest[if i < pos then i else i - 1] == e;
    }
  }

  /** How one anchor fared: a boat was laid, no direction gave a free run,
      or the draws ran out while choosing a direction. */
  datatype Attempt = Placed | NoRun | OutOfDraws

  /** From a free anchor (x, y), tries the four directions in an order
      drawn without replacement, one draw per try reduced modulo the
      directions left, and lays the boat on the first free run. */
  method TryAnchor(occ: array2<bool>, ships: seq<Ship>, rand: seq<nat>, k0: nat, x: int, y: int, s: int)
    returns (outcome: Attempt, placed: seq<Ship>, k: nat)
    requires Mirrors(occ, ships) && PartialFleet(ships)
    requires |ships| < |Sizes| && s == Sizes[|ships|] && 1 <= s <= N && k0 <= |rand|
    modifies occ
    ensures k0 <= k <= |rand|
    ensures outcome == Placed ==> |placed| == |ships| + 1 && PartialFleet(placed) && Mirrors(occ, placed)
    ensures outcome != Placed ==> placed == ships && Mirrors(occ, ships)
    ensures outcome == OutOfDraws ==> k == |rand|
    ensures outcome == Placed ==> exists d :: d in Directions && placed == ships + [Extent(x, y, d, s)]
    ensures outcome == NoRun ==> forall d :: d in Directions ==> !RunOpen(occ, x, y, d, s)
    ensures RowDraws(rand) && InRows(ships) && k0 == 3 * |ships| + 2 && x == |ships| && y == 0 ==>
      outcome == Placed && k == k0 + 1 && InRows(placed)
  {
    ghost var t := |ships|;
    ghost var onRow := RowDraws(rand) && InRows(ships) && k0 == 3 * t + 2 && x == t && y == 0;
    outcome, placed, k := NoRun, ships, k0;
    var dirs := Directions;
    while |dirs| > 0 && outcome == NoRun
      invariant k0 <= k <= |rand|
      invariant outcome != OutOfDraws
      invariant outcome == Placed ==> |placed| == t + 1 && PartialFleet(placed) && Mirrors(occ, placed)
      invariant outcome == NoRun ==> placed == ships && Mirrors(occ, ships)
      invariant Distinct(dirs) && forall e :: e in dirs ==> e in Directions
      invariant outcome == Placed ==> exists d :: d in Directions && placed == ships + [Extent(x, y, d, s)]
      invariant outcome == NoRun ==> forall d :: d in Directions && d !in dirs ==> !RunOpen(occ, x, y, d, s)
      invariant onRow && outcome == Placed ==> k == k0 + 1 && InRows(placed)
      invariant onRow && outcome == NoRun ==> k == k0 && |dirs| == |Directions| && dirs[2] == Right
      decreases |dirs|
    {
      if k + 1 > |rand| {
        return OutOfDraws, ships, k;
      }
      if onRow {
        RowDrawsFor(rand, t);
        assert rand[k] % |dirs| == 2;
        RowFree(occ, ships, t, s);
        InRowsAppend(ships, t, s);
      }
      var pos := rand[k] % |dirs|;
      k := k + 1;
      var d := dirs[pos];
      RemoveAt(dirs, pos);
      dirs := dirs[..pos] + dirs[pos + 1..];
      var free := RunFree(occ, x, y, d, s);
      if free {
        AddShip(occ, ships, x, y, d, s);
        MarkRun(occ, ships, x, y, d, s);
        placed := ships + [Extent(x, y, d, s)];
        outcome := Placed;
      }
    }
  }

  /** Places the fleet on an empty N×N board. For each size in turn: draw an
      anchor (two draws, reduced modulo N), skip it if occupied, otherwise
      try the directions from it (`TryAnchor`). An anchor with no free run
      is discarded and a new one drawn. `used` is the number of draws
      consumed; `None` means the draws ran out before the fleet was
      complete. On the draws `RowDraws` every boat is placed at its first
      anchor and direction. */
  method PlaceFleet(rand: seq<nat>) returns (fleet: Option<seq<Ship>>, used: nat)
    ensures used <= |rand|
    ensures fleet.Some? ==> ValidFleet(fleet.value)
    ensures fleet.None? ==> used + 2 > |rand|
    ensures RowDraws(rand) ==> fleet.Some? && used == 3 * |Sizes|
  {
    var occ := new bool[N, N]((i, j) => false);
    var ships: seq<Ship> := [];
    var k := 0;
    var t := 0;
    while t < |Sizes|
      invariant 0 <= t <= |Sizes| && |ships| == t && k <= |rand|
      invariant PartialFleet(ships)
      invariant Mirrors(occ, ships)
      invariant RowDraws(rand) ==> k == 3 * t && InRows(ships)
    {
      var s := Sizes[t];
      SizesPositive(t);
      var placed := false;
      while !placed
        invariant k <= |rand|
        invariant |ships| == (if placed then t + 1 else t)
        invariant PartialFleet(ships)
        invariant Mirrors(occ, ships)
        invariant RowDraws(rand) ==> InRows(ships) && k == (if placed then 3 * t + 3 else 3 * t)
        decreases |rand| - k
      {
        if k + 2 > |rand| {
          return None, k;
        }
        if RowDraws(rand) {
          RowAnchorFree(rand, occ, ships, t);
        }
        var x, y := rand[k] % N, rand[k + 1] % N;
        k := k + 2;
        if occ[x, y] {
          continue;
        }
        var outcome;
        outcome, ships, k := TryAnchor(occ, ships, rand, k, x, y, s);
        if outcome == OutOfDraws {
          return None, k;
        }
        placed := outcome == Placed;
      }
      t := t + 1;
    }
    fleet, used := Some(ships), k;
  }
}
