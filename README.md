# Kriegspiel engine, modelled in Dafny

This project models the game engine of *Kriegspiel*, Guy Debord's "Game of War": a
two-sided wargame on a 25 × 20 board. Its engine is `web/src/games/kriegspiel/Game.ts`,
a `boardgame.io` game. The board has two layers:

- **units**: infantry, cavalry, artillery, relays and their swift variants;
- **strongholds**: Arsenals, Fortresses, Passes and Mountains.

Units only fight while they are *supplied*. Supply lines run from a side's Arsenals
along the eight rays of the "米" shape. Relays lying on those lines cast new lines, and
supply spreads from unit to adjacent unit of the same side.

An attack succeeds when the attacker's offence on the target cell beats the defender's
defence there:

- a margin of one forces the defeated unit to retreat;
- a larger margin captures it.

A side loses once the board holds strongholds but none of that side's Arsenals.

## The modules

| Module | File | Models |
|---|---|---|
| `Geometry` | `geometry.dfy` | Cell ids and positions, their round trip, the Chebyshev distance. |
| `Seqs` | `seqs.dfy` | The array helpers `filterCId` and `removeDup`. |
| `Pieces` | `pieces.dfy` | Unit and stronghold data (`objDataList`, `renderPlaceByType`), the per-side records and `GameState`. |
| `Rays` | `rays.dfy` | `searchInMiShape`: the eight rays from a cell, each ending at the first cell a filter refuses. |
| `Supply` | `supply.dfy` | `dirSupplyFrom`, `getDirSuppliedLines`, `connectedComponents`, `getSuppliedCells`. |
| `Combat` | `combat.dfy` | `fireRange`, `getChargedCavalries`, `getBattleFactor`, `getRelDef`, `canAttack`. |
| `Moves` | `moves.dfy` | `moveRange`, `canPick`, `canPut`. |
| `Codec` | `codec.dfy` | The board text: `board2FEN`, `FEN2board`, `exportGame`, `loadPieces`, `loadPlaces`, `decodeObj`, `decodeStrong`. |
| `Game` | `game.dfy` | `update` and each move and turn hook as a function from state to state, with the lemmas about them. |
| `Engine` | `engine.dfy` | The game object as the class `Kriegspiel`, whose methods update its fields in place as the moves and hooks do. |

### How the model is built

- **Proved against functions.** Each loop of the source is a method proved against
  the function that specifies it:
  - `searchInMiShape`'s nested loops;
  - `moveRange`'s expansion rounds;
  - `connectedComponents`' growth;
  - `board2FEN` and `FEN2board`;
  - `update`'s stronghold pass.
- **The state invariant.** `Kriegspiel.Valid()` says that:
  - every unit's `supplied` flag agrees with its side's `inSupply` list;
  - every listed cell holds a unit of that side;
  - the arrays have the board's size.

  Every method keeps it.
- **Inputs.** The current side (`ctx.currentPlayer`) is a parameter of every move. A
  move that `Game.ts` answers with `INVALID_MOVE` returns `false` and changes nothing.
- **The board text.** The text the codec reads and writes is modelled after it is split
  at `|` (a sequence of `Field`s). Each unit or stronghold part is a symbol with an
  optional side.

### Where the model follows the code

The code is the reference throughout. These are the points where the game's rules, as
described in prose, could be read otherwise:

- **Supply filter.** A supply ray is blocked by an enemy unit with offence that is
  itself supplied. Whether that unit is retreating does not matter.
- **Cavalry charges.**
  - A charge never reaches a target standing in a Fortress or on a Pass.
  - Only cavalry lying next to one another along a ray, from distance 1 on, count.
- **Taken Arsenals.**
  - The record of a taken Arsenal is written for the side whose turn it is, whichever
    side took it.
  - When several Arsenals fall in one update, the last one in cell order is recorded.
- **Game end.** `endIf` tests only the side whose turn it is.
- **Order of `update`.**
  1. The current side's supply is computed from the flags as they were.
  2. All units are re-marked.
  3. The other side's supply is computed on the re-marked board.
- **Ownerless Arsenals.** An Arsenal without owner falls into the branch for Fortresses
  and Passes. It takes its occupant's side if the occupant can use strongholds, and
  otherwise stays without owner.
- **A forced retreat.** After an attack with margin one, the attack record holds the
  struck unit, now marked retreating, as `attack` leaves it. Its `supplied` flag is the
  one from before `update`, because `update` rewrites the cells with fresh objects.
- **Empty cells at the end.** `board2FEN` does not write the empty cells after the last
  occupied one, and an empty board is written `||`.
- **Initial state of `loadGame`.**
  - `loadGame`'s `inSupply` arrays of `false` are empty lists here. The first supply
    pass of `update` does read the other side's array (`updateSuppliedObj` marks every
    unit from both lists). Every id is absent from an array of `false` under `includes`,
    just as from an empty list, so the marks are the same.
  - The control area starts with the first half of the cells held by side `0` and the
    rest by side `1`.
- **`moveRange`.**
  - Every expansion round bounds the distance from the start by the unit's speed.
  - A cell already reached counts as its own neighbour.
- **`onBegin`.** An empty cell at the start of a pending retreat counts as "not
  supplied", as `!G.cells[st]?.supplied` does.

## Model

| member | source | states |
|---|---|---|
| Geometry.Pos2CId | web/src/games/kriegspiel/Game.ts:415-421 | The id is -1 exactly when the position is off the board, and otherwise a cell id of the board. |
| Geometry.CId2Pos | web/src/games/kriegspiel/Game.ts:423-427 | A cell id of the board gives a position on the board. |
| Geometry.PosRoundTrip | web/src/games/kriegspiel/Game.ts:415-427 | `CId2Pos(Pos2CId(x, y))` gives back every on-board position. |
| Geometry.CIdRoundTrip | web/src/games/kriegspiel/Game.ts:415-427 | `Pos2CId` of `CId2Pos(id)` gives back every cell id. |
| Geometry.NaiveDistance | web/src/games/kriegspiel/Game.ts:429-431 | The distance is the larger of the two coordinate differences, and 0 exactly for equal positions. |
| Geometry.DistanceMetric | web/src/games/kriegspiel/Game.ts:429-431 | The distance is symmetric and obeys the triangle inequality. |
| Geometry.PtSetDisLessThan | web/src/games/kriegspiel/Game.ts:433-437 | True exactly when some point of the set lies within the given distance of the point. |
| Seqs.RemoveDup | web/src/games/kriegspiel/Game.ts:457-459 | The result has no duplicates and the same elements as the input. |
| Seqs.FilterCId | web/src/games/kriegspiel/Game.ts:461-463 | The ids listed are exactly the occupied entries satisfying the predicate, each once. |
| Pieces.Dual | web/src/games/kriegspiel/Game.ts:17-24 | The other side is never the same side. |
| Pieces.ObjDataOf | web/src/games/kriegspiel/Game.ts:745-806 | Speed and defence are at least 1. Swift types share the functional type of their base. Only relays have no offence, and relays have range 0. Exactly infantry and artillery may use strongholds. |
| Pieces.RenderPlaceByType | web/src/games/kriegspiel/Game.ts:835-848 | Exactly Fortresses and Passes add defence, and the symbol is one of the four stronghold symbols. |
| Rays.SearchInMiShape | web/src/games/kriegspiel/Game.ts:525-565 | The nested loops return exactly the non-empty rays, in direction order, as cell ids and as relative positions. |
| Rays.VisitDirection | web/src/games/kriegspiel/Game.ts:538-561 | One pass of the inner loop appends the ray of its direction when that ray is non-empty. |
| Rays.WalkRay | web/src/games/kriegspiel/Game.ts:539-556 | The walk along one direction collects the cells up to the first one the filter refuses or the maximum distance. |
| Rays.RayShape | web/src/games/kriegspiel/Game.ts:539-556 | A ray is at most `max - min + 1` long, every cell on it passes the filter, and the cell after its end, if within range, does not. |
| Rays.RayFacts | web/src/games/kriegspiel/Game.ts:539-556 | The `t`-th cell of a ray passes the filter and lies at distance `min + t` from the centre. The relative ray has the same length. |
| Rays.AlongDistance | web/src/games/kriegspiel/Game.ts:539-556 | The cell `n` steps along a unit direction lies at distance `n`. |
| Rays.RowsFacts | web/src/games/kriegspiel/Game.ts:525-565 | Every cell on any ray of a list of directions passes the filter and lies between `min` and `max` from the centre. |
| Rays.MiShapeFacts | web/src/games/kriegspiel/Game.ts:525-565 | Every cell of the 米 shape passes the filter and lies within `[min, max]`. There are at most eight rays, and as many relative rays as id rays. |
| Rays.MiShapeDistinct | web/src/games/kriegspiel/Game.ts:525-565 | From distance 1 on, no cell occurs twice in the 米 shape. |
| Rays.RaysDisjoint | web/src/games/kriegspiel/Game.ts:525-565 | From distance 1 on, rays in two different directions share no cell. |
| Rays.AlongInjective | web/src/games/kriegspiel/Game.ts:539-556 | Two steps from the same cell reach the same cell only with the same direction and distance. |
| Rays.RayDistinct | web/src/games/kriegspiel/Game.ts:539-556 | No cell occurs twice on one ray. |
| Rays.RowsCount | web/src/games/kriegspiel/Game.ts:525-565 | There are no more rays than directions. |
| Rays.MiShapeExact | web/src/games/kriegspiel/Game.ts:525-565 | A cell is found by the search exactly when it is sighted: it lies `min` to `max` steps out in one of the eight directions, and every cell of that direction from `min` steps up to it passes the filter. |
| Rays.MiShapeSighted | web/src/games/kriegspiel/Game.ts:525-565 | Every cell the search finds is sighted. |
| Rays.SightedInMiShape | web/src/games/kriegspiel/Game.ts:525-565 | No sighted cell is missed by the search. |
| Rays.RowsInclude | web/src/games/kriegspiel/Game.ts:557-560 | A cell on the ray of any searched direction is in the result. |
| Rays.RayLengthAtLeast | web/src/games/kriegspiel/Game.ts:542-556 | A ray runs on at least as far as its cells keep passing the filter. |
| Rays.MiShapeRelToCIds | web/src/games/kriegspiel/Game.ts:525-565 | Mapping the relative positions back to ids gives exactly the cell-id rays. |
| Supply.GetDirSuppliedLines | web/src/games/kriegspiel/Game.ts:676-692 | The method returns the lines of the Arsenal pass plus two relay passes, and the deduplicated cells on them. |
| Supply.SupplyLinesStep | web/src/games/kriegspiel/Game.ts:676-692 | A cell is on the first lines exactly when it is on a ray of an own Arsenal. It is on the lines of the next pass exactly when it was already on a line or on a ray of an own relay lying on a line. |
| Supply.DirSuppliedCells | web/src/games/kriegspiel/Game.ts:676-692 | The directly supplied cells, characterised pass by pass, in both directions. |
| Supply.Sources | web/src/games/kriegspiel/Game.ts:677-678 | The Arsenal list holds exactly the side's own Arsenals. The relay list holds exactly its relays and swift relays, and the piece list exactly its units. |
| Supply.DirSupplyExact | web/src/games/kriegspiel/Game.ts:663-674 | The supply rays from a cell reach exactly the cells sighted from it. Mountains and armed, supplied enemy units block them. |
| Supply.OnSomeRay | web/src/games/kriegspiel/Game.ts:663-692 | Every directly supplied cell lies on a supply ray from some cell. |
| Supply.DirSuppliedUnblocked | web/src/games/kriegspiel/Game.ts:663-674 | A directly supplied cell is on the board and no Mountain. A unit on it is the side's own, has no offence, or is unsupplied. |
| Supply.ConnectedComponents | web/src/games/kriegspiel/Game.ts:439-450 | The loop computes the closure `CC` of the start points within the pool. |
| Supply.CCGrows | web/src/games/kriegspiel/Game.ts:439-450 | The closure begins with the start points and adds only pool points. |
| Supply.CCChain | web/src/games/kriegspiel/Game.ts:439-450 | Every added point is adjacent to an earlier point of the result. |
| Supply.CCClosed | web/src/games/kriegspiel/Game.ts:439-450 | No pool point left out is adjacent to the result. |
| Supply.CCDistinct | web/src/games/kriegspiel/Game.ts:439-450 | Distinct pool and start points give a result without duplicates. |
| Supply.GetSuppliedCells | web/src/games/kriegspiel/Game.ts:694-702 | The method computes the side's supplied cells. |
| Supply.SuppliedFacts | web/src/games/kriegspiel/Game.ts:694-702 | The supplied cells are distinct units of the side. They include every own unit that is directly supplied. Each is directly supplied or adjacent to an earlier one, and no own unit left out touches them. |
| Combat.CanAttack | web/src/games/kriegspiel/Game.ts:508-523 | An allowed attack has a positive margin and targets a unit of the other side. |
| Combat.AttackForbidden | web/src/games/kriegspiel/Game.ts:508-523 | With a pending retreat or an attack already made this turn, every attack is refused with margin 0. |
| Combat.AttackMargin | web/src/games/kriegspiel/Game.ts:508-523 | With no pending retreat and no attack yet, on an enemy unit, the margin is the attacker's offence less the defence of the unit's side. The attack is allowed exactly when that margin is positive. |
| Combat.AttackNeedsAttacker | web/src/games/kriegspiel/Game.ts:508-523 | An allowed attack targets an enemy unit, and at least one unit of the attacker takes part. |
| Combat.FireRangeExact | web/src/games/kriegspiel/Game.ts:596-598 | The fire range holds exactly the cells a fire line reaches within the range, where only Mountains block, each once. |
| Combat.InRangeExact | web/src/games/kriegspiel/Game.ts:602-619 | A unit is counted in range exactly when it contributes (in its own range, supplied, the player's, and for offence armed and not retreating) and a fire line from the target reaches it within three steps. |
| Combat.ChargeExact | web/src/games/kriegspiel/Game.ts:569-594 | A cavalry charges exactly when the target is a unit outside a Fortress or Pass and the cavalry lies in an unbroken run of charging cavalry, one to four steps out in one direction. |
| Combat.BattleFactor | web/src/games/kriegspiel/Game.ts:602-659 | The units counted are those in range, joined by the charging cavalries in an offence on an enemy unit. The value is their summed factor, plus 3 per charging cavalry in such an offence, or plus the stronghold bonuses (at most 4 per unit) in defence. |
| Combat.RelDef | web/src/games/kriegspiel/Game.ts:599-601 | The relative defence is the side's defence (units in range plus stronghold bonuses) less the other side's offence. On an empty cell, or one the other side holds, that offence carries no charge. |
| Combat.InRangeFacts | web/src/games/kriegspiel/Game.ts:596-619 | The units in range are distinct. Each is supplied, the player's, within its own range, on an open fire line and at most 3 cells away. For offence, each is neither retreating nor unarmed. |
| Combat.ChargedFacts | web/src/games/kriegspiel/Game.ts:569-594 | Every charging unit is a supplied, non-retreating enemy cavalry unit outside a Fortress, 1 to 4 cells away. There is no charge on a Fortress, a Pass or an empty cell. |
| Combat.BattleUnits | web/src/games/kriegspiel/Game.ts:602-659 | The units making a battle factor are distinct supplied units of the player, in range or charging, and for offence not retreating and armed. |
| Combat.StrongholdDefBound | web/src/games/kriegspiel/Game.ts:621-629 | The stronghold bonus adds at most 4 per unit counted. |
| Moves.MoveRange | web/src/games/kriegspiel/Game.ts:488-506 | The loop computes `speed` rounds of expansion from the start cell. |
| Moves.ReachFacts | web/src/games/kriegspiel/Game.ts:488-506 | Every reached cell is empty, on the board, not a Mountain, within speed of the start and adjacent to a cell of the previous round. Each round is sorted. |
| Moves.ReachGrows | web/src/games/kriegspiel/Game.ts:488-506 | The reached cells only grow from round to round. |
| Moves.NeighbourReachable | web/src/games/kriegspiel/Game.ts:488-506 | An empty non-Mountain neighbour of the start is always reachable. |
| Moves.Destinations | web/src/games/kriegspiel/Game.ts:467 | The destinations are the second halves of the move records, in order. |
| Moves.CanPick | web/src/games/kriegspiel/Game.ts:465-482 | A unit may be picked exactly when all of these hold: its side has not attacked; its side has made fewer than five moves; the unit has not moved this turn; and either the pick is the pending retreat, or, with none pending, the unit is its side's and is supplied or a relay. |
| Moves.CanPutNeighbour | web/src/games/kriegspiel/Game.ts:483-506 | The unit on the start can always be put on an empty, non-Mountain cell touching it. |
| Moves.CanPutFacts | web/src/games/kriegspiel/Game.ts:483-506 | An allowed destination is an empty, non-Mountain cell other than the start, within the unit's speed. |
| Codec.BoardToFen | web/src/games/kriegspiel/Game.ts:172-187 | The loop produces exactly the framed fields of `Board2Fen`. |
| Codec.ExportGame | web/src/games/kriegspiel/Game.ts:203-220 | The export is `board2FEN` of the mixed unit-and-stronghold board. |
| Codec.FenToBoard | web/src/games/kriegspiel/Game.ts:188-201 | The loop produces the board that `Load` defines. |
| Codec.LoadCursor | web/src/games/kriegspiel/Game.ts:188-201 | The cursor ends at the span of the fields read, and no cell at or past it is written. |
| Codec.LoadPieces | web/src/games/kriegspiel/Game.ts:222-228 | The pieces are the board decoded from each field's first part. |
| Codec.LoadPlaces | web/src/games/kriegspiel/Game.ts:229-236 | The strongholds are the board decoded from each field's last part. |
| Codec.DecodeObj | web/src/games/kriegspiel/Game.ts:259-281 | A decoded unit carries the part's side and symbol and is fresh: supplied and not retreating. |
| Codec.DecodeStrong | web/src/games/kriegspiel/Game.ts:283-300 | A decoded stronghold carries the part's side and symbol. |
| Codec.RoundTrip | web/src/games/kriegspiel/Game.ts:172-201 | `FEN2board` of `board2FEN` of a full board gives back each cell decoded. |
| Codec.PiecesRoundTrip | web/src/games/kriegspiel/Game.ts:203-228 | Loading the pieces of an export gives back every unit's type and side, fresh. |
| Codec.PlacesRoundTrip | web/src/games/kriegspiel/Game.ts:203-236 | Loading the strongholds of an export gives back the strongholds exactly. |
| Game.MarkSupplied | web/src/games/kriegspiel/Game.ts:373-381 | Re-marking the units keeps the board's size. |
| Game.PlacesUpTo | web/src/games/kriegspiel/Game.ts:334-356 | The stronghold pass keeps the board's size. |
| Game.LastTaken | web/src/games/kriegspiel/Game.ts:334-356 | The Arsenal recorded is the last one taken in cell order, or none was taken. |
| Game.EndIf | web/src/games/kriegspiel/Game.ts:158-164 | There is a winner exactly when some stronghold exists and the current side owns no Arsenal, and the winner is the other side. |
| Game.UpdatedStrip | web/src/games/kriegspiel/Game.ts:328-381 | `update` changes no unit except its `supplied` flag. |
| Game.UpdatedRecords | web/src/games/kriegspiel/Game.ts:328-358 | `update` keeps the sizes, the move records, the retreats and the other side's attack record. It can change the current side's record only to a taken Arsenal. |
| Game.SupplyStepFacts | web/src/games/kriegspiel/Game.ts:360-381 | One supply pass sets the side's list to its supplied cells and keeps the other side's list. It leaves every unit the same but for its flag, and makes the flags agree with the lists. |
| Game.SuppliedOwn | web/src/games/kriegspiel/Game.ts:694-702 | Every supplied cell holds a unit of the side. |
| Game.UpdatedConsistent | web/src/games/kriegspiel/Game.ts:328-381 | After `update`, every unit's flag matches its side's list, and every listed cell holds a unit of that side. |
| Game.UpdateOrder | web/src/games/kriegspiel/Game.ts:328-332 | The current side's list is computed on the old board, and the other side's on the board after the first pass. |
| Game.NewPlaceFacts | web/src/games/kriegspiel/Game.ts:334-356 | The pass never creates a stronghold or changes its type, and leaves every Mountain, owned or not, as it is. An owned Arsenal disappears exactly when an armed, supplied enemy stands on it. A Fortress, a Pass or an ownerless Arsenal stays and belongs to its occupant's side exactly when the occupant can use it. |
| Game.ArsenalRecord | web/src/games/kriegspiel/Game.ts:339-348 | With no Arsenal taken the records are unchanged. Otherwise the last taken Arsenal is recorded for the current side and removed. The other side's record never changes. |
| Game.ControlFacts | web/src/games/kriegspiel/Game.ts:382-400 | Both relative defences are recorded. An occupied cell goes to its unit's side. An empty cell changes hands only to a side with strictly more relative defence, and always does so. |
| Game.UpdatedValid | web/src/games/kriegspiel/Game.ts:328-400 | `update` establishes the state invariant from any state of the board's size. |
| Game.MovedFacts | web/src/games/kriegspiel/Game.ts:117-136 | A move carries the unit from start to destination and appends the move record. It turns a pending retreat into a finished one at the destination. |
| Game.MoveEffect | web/src/games/kriegspiel/Game.ts:117-136 | After a legal move and `update`, the invariant holds, the unit is at the destination, and the move is recorded. A pending retreat becomes finished at the destination. |
| Game.MoveQuota | web/src/games/kriegspiel/Game.ts:465-482 | After five moves, or after an attack, no move is legal. |
| Game.AttackedFacts | web/src/games/kriegspiel/Game.ts:138-155 | An allowed attack targets the other side with a margin of at least 1. Margin 1 marks the unit retreating and gives its side a pending retreat, and a larger margin removes it. The attack is recorded. |
| Game.AttackEffect | web/src/games/kriegspiel/Game.ts:138-155 | After an attack and `update`, the invariant holds and the unit retreats or is captured. The attacking side can neither attack nor move again this turn. |
| Game.AttackUsed | web/src/games/kriegspiel/Game.ts:465-523 | With an attack record, the side can neither attack nor move. |
| Game.BegunFacts | web/src/games/kriegspiel/Game.ts:64-76 | The turn's move and attack records are cleared. A pending retreat with nowhere to go, or out of supply, removes the unit and clears the retreat. Otherwise nothing else changes. |
| Game.BeginEffect | web/src/games/kriegspiel/Game.ts:64-76 | After `onBegin`, the invariant holds, the moves are cleared, and a failed retreat loses its unit. The only attack record left is a taken Arsenal. |
| Game.EndedFacts | web/src/games/kriegspiel/Game.ts:77-90 | A finished retreat's unit stops retreating and the retreat is cleared. Without one, nothing changes. |
| Game.EndEffect | web/src/games/kriegspiel/Game.ts:77-90 | After `onEnd`, the invariant holds. A finished retreat's unit stops retreating, and nothing else changes. |
| Game.MergeEffect | web/src/games/kriegspiel/Game.ts:97-102 | After `merge`, the invariant holds and every cell holds the added unit if there is one, else the old unit. |
| Game.EditCellsEffect | web/src/games/kriegspiel/Game.ts:103-106 | After `editCells`, the invariant holds and the cell holds the new element. |
| Game.EditPlacesEffect | web/src/games/kriegspiel/Game.ts:107-110 | After `editPlaces`, the invariant holds and the units are unchanged. The cell keeps the new stronghold's type, and only an owned Arsenal can vanish. |
| Game.PlacesKeepTypes | web/src/games/kriegspiel/Game.ts:334-356 | The stronghold pass keeps every stronghold's type, and only owned Arsenals can vanish. |
| Game.LoadGameFacts | web/src/games/kriegspiel/Game.ts:238-257 | A loaded game satisfies the invariant. It has no moves or retreats, and its only attack record is a taken Arsenal. Its units and stronghold types are those of the text. |
| Engine.Kriegspiel.constructor | web/src/games/kriegspiel/Game.ts:59-61 | `setup` builds a valid state equal to `loadGame` of the text. |
| Engine.Kriegspiel.Load | web/src/games/kriegspiel/Game.ts:94-96 | The `load` move replaces the state by a valid `loadGame` of the text. |
| Engine.Kriegspiel.UpdateSuppliedCells | web/src/games/kriegspiel/Game.ts:360-381 | The new state is one supply pass for the side. |
| Engine.Kriegspiel.UpdatePlaces | web/src/games/kriegspiel/Game.ts:334-356 | The loop applies the stronghold pass in cell order. |
| Engine.Kriegspiel.UpdateControlArea | web/src/games/kriegspiel/Game.ts:382-400 | The new control area is the control pass over the board. |
| Engine.Kriegspiel.Update | web/src/games/kriegspiel/Game.ts:328-358 | The new state is `Updated` of the old one, and it is valid whenever the old one had the board's size. |
| Engine.Kriegspiel.CheckMove | web/src/games/kriegspiel/Game.ts:117-121 | The guard is true exactly when a unit on the start may be picked and put on the destination. |
| Engine.Kriegspiel.MovePiece | web/src/games/kriegspiel/Game.ts:117-136 | A legal move updates the state to `Updated(Moved(...))`. An illegal one changes nothing. The invariant is kept. |
| Engine.Kriegspiel.CheckAttack | web/src/games/kriegspiel/Game.ts:138-142 | The guard holds exactly when the cell is on the board, holds a unit, and `canAttack` allows the attack. The margin returned is that of `canAttack`. |
| Engine.Kriegspiel.Attack | web/src/games/kriegspiel/Game.ts:138-155 | An allowed attack on a unit updates the state to `Updated(Attacked(...))`. Anything else changes nothing. The invariant is kept. |
| Engine.Kriegspiel.CheckRetreat | web/src/games/kriegspiel/Game.ts:70 | A retreat fails exactly when there is no cell to step to or the unit is missing or unsupplied. |
| Engine.Kriegspiel.OnBegin | web/src/games/kriegspiel/Game.ts:64-76 | `onBegin` updates the state to `Updated(Begun(...))` and keeps the invariant. |
| Engine.Kriegspiel.OnEnd | web/src/games/kriegspiel/Game.ts:77-90 | `onEnd` updates the state to `Updated(Ended(...))` and keeps the invariant. |
| Engine.Kriegspiel.Merge | web/src/games/kriegspiel/Game.ts:97-102 | `merge` updates the state to `Updated` of the merged board and keeps the invariant. |
| Engine.Kriegspiel.EditCells | web/src/games/kriegspiel/Game.ts:103-106 | `editCells` updates the state to `Updated` of the edited board and keeps the invariant. |
| Engine.Kriegspiel.EditPlaces | web/src/games/kriegspiel/Game.ts:107-110 | `editPlaces` updates the state to `Updated` of the edited strongholds and keeps the invariant. |

## Left out

- The AI configuration (`aiConfig`) and `supplyPrediction` serve the bot and the board's hints, not the rules.
- The scenario strings and game list only feed `loadGame` with text.
- Reading the emoji text is left out: splitting at `/` and `.` and `Number` parsing. The codec works on the text after it is split into fields and parts, so a field that is a number is a `Run`.
- The `boardgame.io` framework is left out: `ctx`, the stage machinery and `INVALID_MOVE` as a value. The current side is a parameter, and a rejected move returns `false`.
- A board text whose runs carry the cursor past the last cell is not modelled. JavaScript would grow the array; `Load` ignores writes beyond the board.
- Engine.Kriegspiel.EditCells: requires an id on the board; `Game.ts` would grow the array for any other id.
- Engine.Kriegspiel.EditPlaces: requires an id on the board, for the same reason.
- Aliasing of objects is left out, except for the attack record's copy of the struck unit. In particular, `loadGame` fills the control area with one shared object; here every cell has its own value, and `update` replaces them all anyway.
- `dualPlayerID`'s result for a player id other than `0` and `1` cannot arise, since `Player` has only two values.
