# Bataille navale rules engine, modelled in Dafny

This project models the rules engine of a two-player battleship game
(`GameService` in `src/bataille-navale/game.service.ts`). It covers five pieces:

- the **cell-shot update** `grid`: one cell of a 10×10 grid of
  `water | missed | boat | touched` is fired at;
- the **grid projection** `getGridFromBoats`: a fleet of boat rectangles becomes
  a grid;
- the **shot reducer** (the `scan` accumulator) with the **turn gate** of
  `shoot`, and the **reset** construction of a fresh game;
- the **fleet placement** `getBoats`: boats of sizes 5,4,3,3,3,2,2,2,1,1 placed
  at random on a boolean occupancy array;
- the **automated opponent**'s choice of target: a random cell of the player's
  board that still shows water or boat.

Files, one module each:

- `wrappers.dfy`: `Option`.
- `board.dfy`: the board size `N = 10`, `Cell`, `Grid`, `Coord`, `Ship` (the
  service's `BOAT`), and cell coverage.
- `shots.dfy`: `Hit` and `Fire` (the service's `grid`).
- `projection.dfy`: `GridFromBoats` (the service's loops) and `Project`. `Project`
  is the reference definition: the grid of a fleet after a list of received
  shots.
- `fleet.dfy`: `PlaceFleet` (the service's `getBoats`/`getCoord`) on an
  `array2<bool>`, with its helpers.
- `game.dfy`: `State`, `Reduce`, `Shoot`, `Reset` and the consistency invariant.
  The invariant says every grid equals `Project` of that side's boats and the
  shots it received.
- `opponent.dfy`: the candidate cells and the opponent's shot.

Randomness is an input. `PlaceFleet` and `Reset` take a finite sequence of
natural-number draws. Each draw is reduced into the range the service asks
`Math.random` for:
- an anchor coordinate is reduced modulo `N`;
- a direction index is reduced modulo the number of directions left.

The opponent's choice takes one draw `pick`, reduced modulo the number of
candidates.

Shots are recorded on the side that is shot at: the reducer appends the
coordinate to the defending participant's `data.shots`
(`game.service.ts:126-131`), so a side's `shots` lists the shots it received.

## Model

| member | source | states |
|---|---|---|
| Shots.Hit | src/bataille-navale/game.service.ts:40-50 | a shot cell is always missed or touched, a boat stays a boat (touched) and water stays water (missed), and a cell already shot keeps its value |
| Shots.Fire | src/bataille-navale/game.service.ts:39-52 | the update fails exactly when the row index is outside the grid; otherwise every row keeps its length, the target cell takes `Hit` of its old value and every other cell is unchanged |
| Shots.FireIdempotent | src/bataille-navale/game.service.ts:41-51 | shooting the same coordinate twice gives the same grid as shooting it once |
| Shots.FireCommutes | src/bataille-navale/game.service.ts:39-52 | two shots on the same grid give the same result in either order |
| Shots.FireMonotone | src/bataille-navale/game.service.ts:41-51 | a shot never turns a shot cell back into an unshot one and never adds or removes a boat |
| Projection.PaintShip | src/bataille-navale/game.service.ts:217-223 | painting one boat sets exactly the cells inside its upper-left..lower-right rectangle to boat and leaves every other cell as it was |
| Projection.GridFromBoats | src/bataille-navale/game.service.ts:212-226 | the result is N×N; a cell is boat iff it lies inside some boat's upper-left..lower-right rectangle, and water otherwise |
| Projection.Project | src/bataille-navale/game.service.ts:126-134 | the grid of a fleet after received shots exists iff every shot's row is on the board; it is N×N, and each cell is touched, missed, boat or water according to whether a boat covers it and whether it was shot |
| Projection.SameShotCellsSameGrid | src/bataille-navale/game.service.ts:131-133 | two shot lists holding the same cells, in any order and with any repeats, produce the same grid |
| Projection.RepeatShotNoEffect | src/bataille-navale/game.service.ts:131-133 | recording a shot at a cell already shot leaves the grid unchanged |
| Fleet.Extent | src/bataille-navale/game.service.ts:259-261 | the recorded rectangle has ordered corners and is one cell wide with length equal to the boat size |
| Fleet.ExtentIsRun | src/bataille-navale/game.service.ts:259-267 | the min/max-normalised rectangle covers exactly the s cells of the run from the anchor in the chosen direction |
| Fleet.RunFree | src/bataille-navale/game.service.ts:252-256 | true iff every one of the s cells of the run is on the board and unoccupied |
| Fleet.MarkRun | src/bataille-navale/game.service.ts:267 | after marking, the occupancy array holds exactly the cells of the placed boats plus the new boat |
| Fleet.AddShip | src/bataille-navale/game.service.ts:252-264 | a boat laid on a free run keeps every boat of its size, on the board, and disjoint from all earlier boats |
| Fleet.TryAnchor | src/bataille-navale/game.service.ts:239-272 | trying the directions from one anchor (x, y) either lays the boat on the run from (x, y) in one of the four directions, appended to the unchanged earlier boats, keeping the fleet valid and the occupancy array equal to the boats' cells; or, when the anchor is discarded, leaves both unchanged, and then the run in every one of the four directions is blocked; on the row-by-row draws, with anchor (t, 0) and no earlier boat in row t, the next draw picks `Right` and the boat is laid |
| Fleet.PlaceFleet | src/bataille-navale/game.service.ts:228-277 | a returned fleet has one boat per size of 5,4,3,3,3,2,2,2,1,1 in that order; each has ordered corners, is one cell wide with length equal to its size and lies within 0..N-1; no two boats share a cell; the draws consumed never exceed those supplied; on the row-by-row draws (`RowDraws`: boat t anchored at (t, 0) and laid rightwards) a fleet always comes back after exactly 30 draws |
| Game.Reduce | src/bataille-navale/game.service.ts:123-149 | a shot from the side not on turn returns the state unchanged; a legal shot fails iff its row is off the defender's grid, and otherwise the defender's shots gain exactly the target, its boats stay, its grid becomes `Fire` of the old grid, the turn flips and the shooter is unchanged |
| Game.Shoot | src/bataille-navale/game.service.ts:188-196 | the status is OK iff the order comes from the side on turn; a rejected order yields the error "not the turn of <side>" naming the rejected side and leaves the state unchanged; an accepted one publishes the reducer's result |
| Game.Reset | src/bataille-navale/game.service.ts:198-210 | a new game has the given turn, empty shot lists, a valid fleet on each side, grids consistent with their fleets, and no shot cell on either board; the draws consumed never exceed those supplied; when both fleets get row-by-row draws a game always comes back after exactly 60 draws |
| Game.ShootPreservesConsistency | src/bataille-navale/game.service.ts:126-134 | every state published after a shot still has each grid equal to the projection of that side's boats and received shots |
| Game.LegalShotProcessed | src/bataille-navale/game.service.ts:125-134 | in a consistent state an order from the side on turn is accepted, and it produces a new state iff its row is on the board |
| Game.ConsistentCells | src/bataille-navale/game.service.ts:126-134 | in a consistent participant, each on-board cell shows whether a boat lies there and whether it was shot |
| Game.ShotReveals | src/bataille-navale/game.service.ts:126-146 | a legal on-board shot leaves the target touched if a defending boat lies there and missed otherwise |
| Game.TurnAlternates | src/bataille-navale/game.service.ts:135-146 | two accepted shots in a row give the turn back to the side that shot first |
| Opponent.RowTargets | src/bataille-navale/game.service.ts:168-172 | the cells collected from one row are exactly its cells that show water or boat |
| Opponent.Targets | src/bataille-navale/game.service.ts:166-173 | the cells collected from the grid are exactly the cells that show water or boat |
| Opponent.TargetsRowMajor | src/bataille-navale/game.service.ts:167-172 | the candidate list is in row-major order and so holds no cell twice |
| Opponent.Candidates | src/bataille-navale/game.service.ts:166-173 | the loop builds exactly the list `Targets` of the grid, so it holds exactly the water-or-boat cells of the player's grid |
| Opponent.OpponentShot | src/bataille-navale/game.service.ts:162-180 | the opponent shoots only on its own turn, as `opponent`, at a water-or-boat cell of the player's grid; it issues nothing iff it is not its turn or no such cell remains |
| Opponent.EveryTargetReachable | src/bataille-navale/game.service.ts:176-177 | every water-or-boat cell of the player's grid is chosen by some draw |
| Opponent.TargetIffNotShot | src/bataille-navale/game.service.ts:169 | on a consistent board, a cell shows water or boat iff it has not been shot |
| Opponent.OpponentShotAccepted | src/bataille-navale/game.service.ts:176-179 | on a consistent state, the opponent's shot is on the board and at a cell not shot before; it is accepted, it records the shot on the player's side and it hands the turn to the player |

## Left out

- The RxJS wiring is not modelled: subjects, `switchMap`, `shareReplay`, `startWith`, the subscriptions and `ngOnDestroy`. Only the reducer it wraps is modelled. Publishing is the value a step returns.
- The placeholder state held before the first reset is not modelled (lines 90-94: empty boats, empty grids). The constructor replaces it at once by calling `reset`.
- The 100 ms `delay` before the opponent plays is timing, so it is not modelled. `OpponentShot` is the opponent's reaction to one published state.
- A generation token that would drop a stale opponent shot after a reset does not exist in `GameService`, so nothing about it is modelled.
- `console.log` output is I/O and is not modelled.
- `Math.random` is replaced by draws supplied as input. The model fixes which outcomes are possible, not their probabilities.
- Fleet.PlaceFleet: returns `None` when the supplied draws run out before the fleet is complete, where `getBoats` has no retry cap and keeps drawing until every boat is placed. The contract does not promise a fleet for every draw sequence on which `getBoats` would finish. It promises one only for the row-by-row draws `RowDraws`.
- Game.Reset: returns `None` when the draws run out during either fleet's placement, where `reset` keeps drawing until both fleets are placed. The contract promises a game only when both fleets get row-by-row draws.
- Game.Reset: takes the starting side as a parameter. The default `turn = 'player'` of `reset` (line 198) is not modelled as a default; the game the constructor starts with `this.reset()` (line 185) is `Reset(Player, rand)`.
- Projection.GridFromBoats: requires every boat to lie on the board. This is what `getBoats` produces and what `PlaceFleet` proves. In `getGridFromBoats`, a rectangle reaching past the last row would throw, and one reaching past the last column would lengthen a row.
- Game.Reduce: when a row index is outside the grid, `grid` throws a TypeError inside `scan`. This error ends the state stream. It is modelled as `None` ("no further state"); what the failed stream then does to later calls is not modelled.
- Coordinates are modelled as unbounded integers. Non-integer JavaScript numbers, which `shoot` would also accept, are not modelled.
- The Angular components (`board`, `game`, `score`), the module declaration and `main.ts` are UI and bootstrap code, so they are not modelled.
