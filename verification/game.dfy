/** The game state machine: the shot reducer, the turn gate in front of it,
    and the construction of a fresh game. */
module Game {
  import opened Wrappers
  import opened Board
  import opened Shots
  import opened Projection
  import opened Fleet

  datatype Side = Player | Opponent

  function Other(side: Side): Side {
    if side == Player then Opponent else Player
  }

  function SideName(side: Side): string {
    match side
    case Player => "player"
    case Opponent => "opponent"
  }

  /** A side's boats and the shots fired at its board, in order. */
  datatype PlayerData = PlayerData(boats: seq<Ship>, shots: seq<Coord>)

  /** A side's data together with the grid its opponent sees. */
  datatype Participant = Participant(data: PlayerData, grid: Grid)

  datatype State = State(turn: Side, player: Participant, opponent: Participant)

  /** A shot request: who claims to shoot, and where. */
  datatype ShotOrder = ShotOrder(orderFrom: Side, at: Coord)

  datatype Status = OK | Error(error: string)

  /** What `shoot` answers, and the state published afterwards; `None` means
      the reducer failed on a row outside the board and the state stream
      stopped. */
  datatype Outcome = Outcome(status: Status, next: Option<State>)

  function Get(s: State, side: Side): Participant {
    match side
    case Player => s.player
    case Opponent => s.opponent
  }

  /** The shot reducer. A shot from the side whose turn it is not leaves the
      state as it is. Otherwise the defending side records the shot and its
      grid takes the hit, the turn passes to the defender, and the shooting
      side is untouched. */
  function Reduce(s: State, order: ShotOrder): (r: Option<State>)
    ensures order.orderFrom != s.turn ==> r == Some(s)
    ensures order.orderFrom == s.turn ==>
      (r.Some? <==> 0 <= order.at.x < |Get(s, Other(s.turn)).grid|)
    ensures order.orderFrom == s.turn && r.Some? ==>
      var before, after := Get(s, Other(s.turn)), Get(r.value, Other(s.turn));
      && r.value.turn == Other(s.turn)
      && Get(r.value, s.turn) == Get(s, s.turn)
      && after.data.boats == before.data.boats
      && after.data.shots == before.data.shots + [order.at]
      && Some(after.grid) == Fire(before.grid, order.at)
  {
    if s.turn != order.orderFrom then Some(s)
    else
      var p := if s.turn == Player then s.opponent else s.player;
      match Fire(p.grid, order.at)
      case None => None
      case Some(g) =>
        var np := Participant(PlayerData(p.data.boats, p.data.shots + [order.at]), g);
        if s.turn == Opponent then Some(State(Player, np, s.opponent))
        else Some(State(Opponent, s.player, np))
  }

  /** The `shoot` entry point: the turn gate, then the reducer. A rejected
      shot is answered with an error naming the side that tried to shoot
      and publishes nothing. */
  function Shoot(s: State, order: ShotOrder): (r: Outcome)
    ensures r.status == OK <==> order.orderFrom == s.turn
    ensures r.status.Error? ==>
      r.next == Some(s) && r.status.error == "not the turn of " + SideName(order.orderFrom)
    ensures r.status == OK ==> r.next == Reduce(s, order)
  {
    if s.turn == order.orderFrom then Outcome(OK, Reduce(s, order))
    else Outcome(Error("not the turn of " + SideName(order.orderFrom)), Some(s))
  }

  /** A side's grid is the projection of its boats and the shots it received. */
  predicate Consistent(p: Participant) {
    Project(p.data.boats, p.data.shots) == Some(p.grid)
  }

  predicate ConsistentState(s: State) {
    Consistent(s.player) && Consistent(s.opponent)
  }

  /** Starts a game: a fleet for the player, then one for the opponent, from
      the same stream of draws; no shots; each grid projected from its
      fleet; the given side to play. `used` is the number of draws
      consumed; `None` means the draws ran out. When both fleets are
      drawn row by row (`RowDraws`), a game always comes back. */
  method Reset(turn: Side, rand: seq<nat>) returns (s: Option<State>, used: nat)
    ensures used <= |rand|
    ensures s.None? ==> used + 2 > |rand|
    ensures RowDraws(rand) && RowDraws(rand[3 * |Sizes|..]) ==> s.Some? && used == 6 * |Sizes|
    ensures s.Some? ==> s.value.turn == turn
    ensures s.Some? ==> s.value.player.data.shots == [] && s.value.opponent.data.shots == []
    ensures s.Some? ==> ValidFleet(s.value.player.data.boats) && ValidFleet(s.value.opponent.data.boats)
    ensures s.Some? ==> ConsistentState(s.value)
    ensures s.Some? ==> forall i, j :: 0 <= i < N && 0 <= j < N ==>
      !IsShot(s.value.player.grid[i][j]) && !IsShot(s.value.opponent.grid[i][j])
  {
    var playerBoats, playerUsed := PlaceFleet(rand);
    if playerBoats.None? {
      return None, playerUsed;
    }
    var opponentBoats, opponentUsed := PlaceFleet(rand[playerUsed..]);
    used := playerUsed + opponentUsed;
    if opponentBoats.None? {
      return None, used;
    }
    var playerGrid := GridFromBoats(playerBoats.value);
    var opponentGrid := GridFromBoats(opponentBoats.value);
    s := Some(State(turn,
                    Participant(PlayerData(playerBoats.value, []), playerGrid),
                    Participant(PlayerData(opponentBoats.value, []), opponentGrid)));
  }

  /** An accepted shot keeps every grid equal to the projection of its
      fleet and received shots. */
  lemma ShootPreservesConsistency(s: State, order: ShotOrder)
    requires ConsistentState(s)
    ensures Shoot(s, order).next.Some? ==> ConsistentState(Shoot(s, order).next.value)
  {
    if order.orderFrom == s.turn && Reduce(s, order).Some? {
      var d := Get(s, Other(s.turn));
      assert (d.data.shots + [order.at])[..|d.data.shots|] == d.data.shots;
    }
  }

  /** In a consistent state a legal shot is processed exactly when its row
      is on the board; columns off the board are recorded with no effect. */
  lemma LegalShotProcessed(s: State, order: ShotOrder)
    requires ConsistentState(s) && order.orderFrom == s.turn
    ensures Shoot(s, order).status == OK
    ensures Shoot(s, order).next.Some? <==> 0 <= order.at.x < N
  {
    assert Consistent(Get(s, Other(s.turn)));
  }

  /** In a consistent state each on-board cell shows whether a boat lies
      there and whether it was fired at. */
  lemma ConsistentCells(p: Participant, c: Coord)
    requires Consistent(p) && OnBoard(c)
    ensures IsBoardGrid(p.grid)
    ensures p.grid[c.x][c.y] == Seen(Occupied(p.data.boats, c), c in p.data.shots)
  {
    assert Project(p.data.boats, p.data.shots).value == p.grid;
  }

  /** A legal shot on the board reveals the target: `Touched` when a boat of
      the defender lies there, `Missed` otherwise. */
  lemma ShotReveals(s: State, order: ShotOrder)
    requires ConsistentState(s) && order.orderFrom == s.turn && OnBoard(order.at)
    ensures Shoot(s, order).next.Some?
    ensures var d := Get(Shoot(s, order).next.value, Other(s.turn));
      d.grid[order.at.x][order.at.y]
        == (if Occupied(d.data.boats, order.at) then Touched else Missed)
  {
    LegalShotProcessed(s, order);
    ShootPreservesConsistency(s, order);
    var t := Shoot(s, order).next.value;
    var d := Get(t, Other(s.turn));
    assert Consistent(d);
    ConsistentCells(d, order.at);
  }

  /** Two accepted shots in a row give the turn back to the first shooter. */
  lemma TurnAlternates(s: State, a: ShotOrder, b: ShotOrder)
    requires Shoot(s, a).status == OK && Shoot(s, a).next.Some?
    requires Shoot(Shoot(s, a).next.value, b).status == OK
    requires Shoot(Shoot(s, a).next.value, b).next.Some?
    ensures Shoot(s, a).next.value.turn == Other(s.turn)
    ensures Shoot(Shoot(s, a).next.value, b).next.value.turn == s.turn
  {
  }
}
