# NodeRunner simulation core in Dafny

NodeRunner is a tick-driven Lode Runner clone for the terminal. The
player digs holes in brick to trap the guards chasing them, collects
every piece of gold, and climbs out through the exit ladders that then
appear. This project models the part of the game that decides what
happens, and proves properties of that model. It covers:

- the tile kinds and their properties (`Tiles`);
- the actors and timed features: player, guards, holes with their
  two-phase timer, digs in progress (`Entity`);
- the movement and dig rules over a map view (`Rules`);
- the terrain and occupancy queries: terrain under the hole grid,
  support, state resolution, entry tests, the hole grid (`Physics`);
- the guard AI: a bounded breadth-first chase, a step-away rule for
  crowded guards, and a direct fallback (`Ai`);
- the world: its two tile layers, the tile mutation API, the hole
  grid, the camera, and the invariant the game keeps (`World`);
- the per-tick `step` pipeline, pass by pass, and `restart_level`
  (`StepBase`, `Dig`, `Movement`, `GuardMove`, `Gravity`, `Pickup`,
  `Timers`, `Exit`, `Step`);
- the save format: snapshot capture and restore, the writer and the
  line parser (`Save`), and their round trip (`SaveRoundTrip`);
- the level text formats: single-level files (`Level`), `.nlp` packs
  (`LevelPack`), and building the world from a level (`LevelLoad`);
- the converter from the original binary level arrays to level text
  (`ConvertLevels`, `ConvertText`);
- the Rust standard-library string operations these parsers use
  (`Text`).

Each pass that changes the world in place is written twice:

- an imperative method on the `WorldState` class, with loops and
  their invariants;
- a function on a value of the world's fields that specifies it.

The method's postcondition says the new fields are the function of the
old ones. The game's promises are proved as lemmas about those
functions. Examples: the world invariant holds across a whole tick,
gold is never lost, and a save read back gives the world it was taken
from. Unsigned integer fields are `nat`; where the source's integer
width matters, the model writes it out: a neighbour coordinate below
zero wraps to a huge index and fails the bounds test, and the save
parsers reject values too large for their type.

## Model

| member | source | states |
|---|---|---|
| Tiles.DefaultTile | src/domain/tile.rs:56-60 | the default tile is Empty, which is passable and neither climbable nor hangable |
| Tiles.PassableIsNotSolid | src/domain/tile.rs:18-41 | the solid tiles are exactly Brick, Concrete and TrapBrick, and a tile is passable exactly when it is not solid |
| Tiles.DiggableIsBrickOnly | src/domain/tile.rs:18-26 | only Brick is diggable, every diggable tile is solid, and Concrete and TrapBrick are solid without being diggable |
| Tiles.ClimbAndHang | src/domain/tile.rs:28-41 | Ladder and HiddenLadder are the climbable tiles and are passable; Rope is the only hangable tile and is passable |
| Tiles.SpecialTilesAreDisjoint | src/domain/tile.rs:18-36 | no tile is both climbable and hangable, and no solid tile is either |
| Entity.NewPlayer | src/domain/entity.rs:50-58 | a new player stands at the given cell, alive, on the ground, facing right, with no move cooldown |
| Entity.NewGuard | src/domain/entity.rs:79-93 | a new guard's spawn point is its start cell; it faces left, stands on the ground, carries no gold and has every timer at 0 |
| Entity.ClosingIsActive | src/domain/entity.rs:118-126 | a closing hole is still active and its open phase is over |
| Entity.Tick | src/domain/entity.rs:135-143 | one tick lowers the open counter if it is positive, otherwise the close counter, never below 0; the flag is true exactly when the hole is now inactive; an inactive hole is left as it is |
| Entity.TickNCountsDown | src/domain/entity.rs:135-143 | every tick of an active hole shortens its remaining lifetime (open plus close ticks) by exactly one, and the hole does not move |
| Entity.ExpiresOnLastTick | src/domain/entity.rs:135-143 | a hole reports expiry for the first time on exactly its (open + close)-th tick |
| Entity.ExpiredStaysExpired | src/domain/entity.rs:135-143 | further ticks leave an expired hole unchanged |
| Entity.OpenThreeCloseTwoLifecycle | src/domain/entity.rs:199-218 | the unit test's 3 + 2 hole: three quiet ticks, then closing with two ticks left, one more quiet tick and expiry on the fifth |
| Entity.NewDig | src/domain/entity.rs:158-164 | a fresh dig has its whole duration remaining and as its total |
| Entity.NewDigWithState | src/domain/entity.rs:167-173 | a restored dig keeps both counters exactly as given |
| Rules.TileAt | src/domain/rules.rs:80-85 | every cell outside the map reads as Concrete; inside, the stored tile |
| Rules.IsPassableAt | src/domain/rules.rs:87-89 | a cell is passable exactly when its tile is Empty, Ladder, Rope, Gold or HiddenLadder, which only happens on the map |
| Rules.HasSupport | src/domain/rules.rs:91-100 | an actor is supported exactly on the bottom row, on a ladder or rope, or above a solid or climbable tile |
| Rules.ResolveState | src/domain/rules.rs:105-116 | Dead and InHole never change; otherwise the state is OnLadder exactly on a ladder, OnRope exactly on a rope, and Falling exactly when there is no support |
| Rules.ResolveStateIsIdempotent | src/domain/rules.rs:105-116 | the resolved state does not depend on the previous mobile state, and resolving twice changes nothing |
| Rules.CanMoveLeft | src/domain/rules.rs:126-130 | never from column 0 or while falling, dead or trapped; otherwise exactly when the cell to the left is passable |
| Rules.CanMoveRight | src/domain/rules.rs:132-136 | never from the last column or while immobile; otherwise exactly when the cell to the right is passable |
| Rules.CanMoveUp | src/domain/rules.rs:138-144 | exactly when the actor is mobile, below the top row, on a ladder, and the cell above is passable |
| Rules.CanMoveDown | src/domain/rules.rs:146-162 | never on the bottom row or when dead or trapped; otherwise exactly when descending a ladder or rope into a passable cell, or stepping onto a ladder below (a falling actor is not excluded) |
| Rules.HorizontalMovesAreReversible | src/domain/rules.rs:126-136 | a step sideways from a passable cell can always be retraced |
| Rules.LadderMovesAreReversible | src/domain/rules.rs:138-162 | a climb up can be undone by a move down, and a move down onto a ladder can be undone by a climb |
| Rules.CanDig | src/domain/rules.rs:164-202 | a dig target exists exactly when the actor is mobile and supported (or on a ladder or rope), the side cell is inside the map and is Empty, Rope or Gold, and the cell below it is Brick; the target is that cell below |
| Rules.DigTargetIsBrickBesideActor | src/domain/rules.rs:164-202 | a dig target is an in-bounds Brick one row below and one column beside the actor, under a passable cell that is not a ladder |
| Rules.ShouldFall | src/domain/rules.rs:204-208 | an actor should fall exactly when it has no support |
| Rules.FallingIffShouldFall | src/domain/rules.rs:105-116 | a mobile actor resolves to Falling exactly when it should fall, and then the cell below is on the map and passable |
| Physics.TerrainAt | src/domain/physics.rs:52-82 | outside the map nothing is passable; an open hole is passable empty space whatever tile lies under it; any other cell has its tile's passable, climbable and hangable properties |
| Physics.TerrainSupport | src/domain/physics.rs:84-108 | the bottom row is always supported, and an open hole below a plain cell (no ladder, rope or hole there) gives no support |
| Physics.NoHolesSupportAgreesWithRules | src/domain/physics.rs:91-108 | with no open hole, terrain support is exactly the rule layer's support |
| Physics.HoleBelowRemovesSupport | src/domain/physics.rs:91-108 | an open hole below an actor on plain ground takes away the support the brick gave under the rule layer |
| Physics.TrappedGuardIsStanding | src/domain/physics.rs:114-144 | a trapped guard is a standing guard, and an active guard is standing unless it is falling |
| Physics.HasSupport | src/domain/physics.rs:159-177 | supported by terrain, or else exactly when a trapped guard is directly below |
| Physics.OnlyTrappedGuardsSupport | src/domain/physics.rs:159-177 | without terrain support, guards below that are not trapped give no support |
| Physics.HasSupportForPlayer | src/domain/physics.rs:179-199 | supported by terrain, or else exactly when a guard that is neither dead nor falling is directly below |
| Physics.PlayerSupportExtendsSupport | src/domain/physics.rs:179-199 | the player is supported wherever an actor is, and also by a standing guard below |
| Physics.HasSupportForGuard | src/domain/physics.rs:201-219 | supported by terrain, or else exactly when a trapped guard other than this one is directly below |
| Physics.GuardSupportIgnoresSelf | src/domain/physics.rs:201-219 | a guard's support is computed as if that guard were removed from the list |
| Physics.ResolveState | src/domain/physics.rs:221-251 | Dead and InHole never change; otherwise OnLadder exactly on climbable terrain, OnRope exactly on hangable terrain that is not climbable, and Falling exactly without support (holes and trapped guards counted) |
| Physics.NoHolesResolveAgreesWithRules | src/domain/physics.rs:229-251 | with no open hole and no trapped guard, the resolution is the rule layer's |
| Physics.BuildHoleGrid | src/domain/physics.rs:257-267 | the grid has the map's shape and is true exactly where an active hole lies on the map |
| Ai.TryMove | src/domain/ai.rs:182-211 | a step that is allowed lands on the neighbour (x + dx, y + dy), inside the map |
| Ai.TryMoveLegality | src/domain/ai.rs:182-211 | a step is allowed exactly when it lands on an in-bounds passable cell, an upward step starts on climbable terrain, a downward step from a supported plain cell lands on a ladder, and a sideways step starts from a supported cell |
| Ai.Manhattan | src/domain/ai.rs:176-178 | the distance is the sum of the absolute coordinate differences, and 0 exactly for the same cell |
| Ai.UnitStepChangesDistanceByOne | src/domain/ai.rs:176-178 | one unit step changes a Manhattan distance by exactly one |
| Ai.FallbackChase | src/domain/ai.rs:213-232 | a sideways step toward the player when that cell can be entered, else a vertical step toward the player from climbable terrain when that cell can be entered, else no move; it gives no move exactly when neither step is possible; any move it makes brings the guard one step closer to the player |
| Ai.PushKeepsInvariant | src/domain/ai.rs:70-73 | queueing an unvisited in-bounds cell with a legal first step, and marking it visited, keeps the search's invariant |
| Ai.SeedSearch | src/domain/ai.rs:62-75 | a first step that lands on the player is returned as a legal step; otherwise the visited grid and the queue satisfy the search invariant |
| Ai.ExpandEntry | src/domain/ai.rs:78-99 | one expansion keeps the search invariant and only appends to the queue; every entry it adds carries the expanded entry's first step; from an unsupported cell the only entry added is the cell below, and from a supported cell every entry added is a legal move by one of the four unit steps; the player is reported reached only through such an entry |
| Ai.ExpandNeighbours | src/domain/ai.rs:91-99 | the loop over the four unit steps keeps the search invariant and only appends to the queue; each entry it adds is a legal move by one of the four steps and carries the expanded entry's first step; the player is reported reached only through such a move |
| Ai.FindDirection | src/domain/ai.rs:48-103 | no move for a trapped or dead guard or one on the player's cell; a step found by the search is one of the four unit steps and a legal move from the guard's cell; otherwise the fallback chase (`ChaseAnswer`); at most 300 cells are expanded and no cell is queued twice |
| Ai.ScoreIsBounded | src/domain/ai.rs:148-166 | the score of a unit step lies between -11 and 11, so it always beats the i32 minimum the search starts from |
| Ai.NearestGuard | src/domain/ai.rs:126-139 | the smallest distance to another guard that is neither dead nor trapped (the i32 maximum when there is none), with the position of the first such guard at that distance |
| Ai.FirstBestIsFirstMaximum | src/domain/ai.rs:149-167 | the scoring loop finds nothing exactly when no step is legal, and otherwise the first legal step of greatest score |
| Ai.BestOfIsFirstMaximum | src/domain/ai.rs:149-167 | a scan that replaces its best only on a strictly greater score finds nothing exactly when no candidate is legal, and otherwise a legal candidate whose score no legal candidate exceeds and that beats every legal candidate before it |
| Ai.BestSeparationStep | src/domain/ai.rs:149-167 | no move exactly when no step is legal; otherwise a legal step whose score is at least every legal step's and strictly above every earlier legal step's |
| Ai.ScoreStep | src/domain/ai.rs:153-161 | whether the k-th step is legal and, if so, its score, which is above the i32 minimum |
| Ai.FindSeparationDirection | src/domain/ai.rs:111-174 | a trapped or dead guard stays put; the guard separates exactly when another active guard is within distance 3 and some step is legal, and then takes the first best-scoring legal step away from the first nearest such guard; otherwise its answer is the chase's (`ChaseAnswer`); the answer always satisfies `SeparationAnswer` |
| Ai.ChaseAnswerMoves | src/domain/ai.rs:48-103 | any move the chase answers is one of the four unit steps, made by a guard that is neither trapped, dead nor on the player's cell, and is a legal move or brings the guard one step closer to the player |
| Ai.NearestIsUnique | src/domain/ai.rs:126-139 | the nearest other active guard, taken as the first at the least distance, is a single guard |
| Ai.BestStepIsUnique | src/domain/ai.rs:147-167 | the first legal step of the highest score is a single step |
| Ai.SeparationStepIsDetermined | src/domain/ai.rs:111-174 | a separating step is determined by the guards and the map: two answers that both qualify are the same step |
| World.DefaultSpeed | src/sim/world.rs:344-354 | the speed settings a new world starts from: 75 ms ticks, player every 2 ticks, guards every 5, digs of 5 ticks, holes open 100 and closing 20 ticks, trap escape 70, respawn 80, gold carried 150 |
| World.CenteredOffset | src/sim/world.rs:80-81 | the offset of a map that fits is minus half the spare view width, rounded down, so the map sits centred |
| World.ClampOffset | src/sim/world.rs:96 | the clamped offset lies in [0, world - view], and an offset already there is kept |
| World.FollowAxisKeepsTargetInView | src/sim/world.rs:76-117 | following centres a map that fits; on a larger map the view stays on the map, an on-map target ends up visible, and a target inside the dead zone does not scroll the view |
| World.CenterAxisKeepsTargetInView | src/sim/world.rs:119-136 | centring centres a map that fits; on a larger map the view stays on the map, an on-map target is visible and sits in the middle column unless the clamp moves it |
| World.FollowOffset | src/sim/world.rs:82-97 | the body of one axis of `follow` computes the dead-zone offset of `FollowAxis` |
| World.Camera.constructor | src/sim/world.rs:69-71 | a new camera is at (0, 0) with an empty view |
| World.Camera.Follow | src/sim/world.rs:76-117 | nothing moves while the view is empty; otherwise each axis gets its dead-zone offset and the view size is kept |
| World.Camera.CenterOn | src/sim/world.rs:119-136 | nothing moves while the view is empty; otherwise each axis is centred on the target and the view size is kept |
| World.Camera.WorldToView | src/sim/world.rs:139-147 | a view cell is returned exactly when the world cell is inside the view, and it is the world cell minus the camera offset |
| World.CenteredTargetIsVisible | src/sim/world.rs:119-147 | after centring on an on-map target of a map larger than the view, the target is visible |
| World.RowGoldUpdate | src/sim/step.rs:518-523 | overwriting one cell changes a row's gold count by the difference, the fact gold bookkeeping rests on |
| World.GoldCountSetCell | src/sim/step.rs:518-523 | overwriting one map cell changes the map's gold count by the difference |
| World.GoldCellIsCounted | src/sim/step.rs:518-523 | a map with a Gold cell holds at least one gold, so taking it cannot underflow a bound on the gold |
| World.CarriersUpdate | src/sim/step.rs:532-541 | replacing one guard changes the number of gold carriers by the difference |
| World.MapOf | src/sim/world.rs:227-233 | the rule layer's map view of a world is its effective tiles and its size |
| World.SetPlainTileKeepsInv | src/sim/world.rs:237-241 | writing a tile other than Brick and Gold keeps the running-level invariant |
| World.DropGoldKeepsInv | src/sim/step.rs:555-561 | a guard dropping its gold on an Empty cell keeps the invariant: the gold moves from the guard to the map |
| World.PickUpGoldKeepsInv | src/sim/step.rs:536-540 | a guard picking up the gold under it keeps the invariant |
| World.UpdateGuardKeepsInv | src/sim/step.rs:198-331 | replacing a guard by one on the map that carries no more gold keeps the invariant |
| World.WorldState.Fields | src/sim/world.rs:150-222 | the simulation fields of a world, gathered into one value |
| World.WorldState.Map | src/sim/world.rs:227-233 | the world's map view is that of its fields |
| World.WorldState.constructor | src/sim/world.rs:333-384 | a new world is empty, on the title screen, with five lives, score 0 and the default speeds |
| World.WorldState.TerrainAt | src/sim/world.rs:227-233 | Concrete off the map, the effective tile on it, and the same answer as the rule layer's `tile_at` |
| World.WorldState.SetTile | src/sim/world.rs:237-241 | only cell (x, y) of the effective layer changes, to the given tile; off the map nothing changes |
| World.WorldState.ClearTile | src/sim/world.rs:245-249 | only cell (x, y) changes, back to its base tile; off the map nothing changes |
| World.WorldState.ResetTiles | src/sim/world.rs:252-254 | the effective layer becomes the base layer and nothing else changes |
| World.WorldState.RebuildHoleGrid | src/sim/world.rs:263-265 | the hole grid marks exactly the cells holding an active on-map hole, and nothing else changes |
| World.ClearDugCellKeepsInv | src/sim/world.rs:245-249 | reverting a dug cell to its base keeps the invariant, since the base there is Brick |
| StepBase.PutTile | src/sim/world.rs:237-241 | `set_tile` on a tile layer: an in-bounds cell is overwritten and the layer stays a grid; a write off the map leaves it unchanged |
| StepBase.CanDropGoldAt | src/sim/step.rs:76-88 | gold may be placed exactly on an in-bounds Empty cell that is on the bottom row or has Brick, Concrete or TrapBrick below |
| StepBase.CarriersMonotone | src/sim/step.rs:473-492 | guards that never gain gold are never more carriers |
| StepBase.GuardsReplacedKeepsInv | src/sim/step.rs:198-331 | replacing every guard by one on the map that gains no gold keeps the running-level invariant |
| StepBase.EnteredHole | src/sim/step.rs:473-492 | after `guard_enter_hole` the guard is InHole with the configured escape time, no other guard changes, and only the tiles and guards may differ |
| StepBase.EnteredHoleConservesGold | src/sim/step.rs:476-490 | entering a hole moves no guard and neither creates nor loses gold: it stays with the guard or lands on the map above the hole |
| StepBase.EnteredHoleKeepsInv | src/sim/step.rs:473-492 | entering a hole keeps the invariant |
| StepBase.GuardEnterHole | src/sim/step.rs:473-492 | the in-place pass leaves the world as `EnteredHole` describes |
| StepBase.Died | src/sim/step.rs:826-830 | the player is dead, the phase is Dying, and nothing else changes |
| StepBase.DiedKeepsInv | src/sim/step.rs:826-830 | a death keeps the invariant |
| StepBase.PlayerDie | src/sim/step.rs:826-830 | the in-place pass leaves the world as `Died` describes |
| Dig.DigTarget | src/sim/step.rs:90-100 | a dig request is accepted exactly when `can_dig` approves it, no dig and no hole is at its target, and the cell above the target is not Gold; the target is the one `can_dig` gives |
| Dig.StartDigKeepsInv | src/sim/step.rs:96-101 | an accepted dig is on a cell that was Brick in the level as loaded, below the top row, and adding it keeps the invariant |
| Dig.DigResolved | src/sim/step.rs:90-103 | a dig is added, of the configured duration at the accepted target, and reported as HoleCreated exactly when a request is accepted; otherwise nothing changes and nothing is reported; nothing but the dig list ever changes |
| Dig.DigResolvedKeepsInv | src/sim/step.rs:90-103 | `resolve_dig` keeps the invariant |
| Dig.ResolveDig | src/sim/step.rs:90-103 | the in-place pass returns the events and leaves the world as `DigResolved` describes |
| Dig.DecAll | src/sim/step.rs:107-108 | every dig ticks once and the list keeps its length |
| Dig.Cleared | src/sim/step.rs:112-113 | emptying the cells of the finished digs keeps the layer a grid |
| Dig.DigsProgressed | src/sim/step.rs:105-120 | after `resolve_dig_progress` only the digs, holes and tiles change, and the map keeps its shape |
| Dig.EveryDigStaysOrOpens | src/sim/step.rs:105-120 | every dig either stays in progress, not finished, or becomes exactly one hole with the configured phases at its own cell: none is lost or doubled |
| Dig.DigTicksDown | src/sim/step.rs:107-108 | a dig loses one tick unless already at 0, finishes exactly when it had at most one tick left, and digs plus holes keep their total number |
| Dig.ClearedKeepsLayers | src/sim/step.rs:112-113 | emptying finished dig cells creates no Brick and no gold |
| Dig.DigsProgressedKeepsInv | src/sim/step.rs:105-120 | `resolve_dig_progress` keeps the invariant |
| Dig.FinishedUpToIsExact | src/sim/step.rs:106-109 | the completed list holds, in increasing order, exactly the indices of the finished digs |
| Dig.TickDigs | src/sim/step.rs:106-109 | the first loop ticks every dig in place and returns the indices of the finished ones in increasing order |
| Dig.ReverseStep | src/sim/step.rs:110-119 | removing the finished dig at the next listed index from the back takes the reverse pass one position further: the dig leaves the list, its cell empties and its hole is appended |
| Dig.ReverseFinish | src/sim/step.rs:110-119 | once every listed dig is handled from the last to the first, the pending digs keep their order, the new holes are appended and the finished cells emptied |
| Dig.OpenDig | src/sim/step.rs:111-118 | one removal takes the dig out of the list, empties its cell and appends its hole |
| Dig.OpenFinishedDigs | src/sim/step.rs:110-119 | the reverse loop leaves the pending digs, appends the holes of the finished ones and empties their cells |
| Dig.ResolveDigProgress | src/sim/step.rs:105-120 | the in-place pass keeps the invariant and leaves the world as `DigsProgressed` describes |
| GuardMove.TickSeparation | src/sim/step.rs:203-207 | phase 0 counts every running separation timer down by one and changes nothing else |
| GuardMove.IntentOf | src/sim/step.rs:212-252 | a guard files an intent exactly when it is not dead, trapped or falling, is off cooldown, the AI asked for a step, and the step lands on an in-bounds passable cell; the intent records the guard, the target and the horizontal part of the step |
| GuardMove.IntentsAreFiled | src/sim/step.rs:210-253 | every listed intent is the one its guard files, and guards appear in strictly increasing order, so none files twice |
| GuardMove.FiledIntentsAreListed | src/sim/step.rs:210-253 | every guard that files an intent has it in the list |
| GuardMove.ChooseStep | src/sim/step.rs:226-238 | the AI step is (0, 0) or one of the four unit steps; while the separation timer runs it is separation mode's answer (`SeparationAnswer`) and otherwise the chase's (`ChaseAnswer`) for that guard |
| GuardMove.CollectIntents | src/sim/step.rs:210-253 | phase 1 returns the intents of every guard for the steps the AI chose, each step (0, 0) or a unit step; each guard's step is the answer of its AI mode on the map with the guards before it already counted down (`AiChose`), and only the cooldowns of free guards that wait are counted down |
| GuardMove.ApprovedTargetsAreFree | src/sim/step.rs:259-276 | every approved intent's target is held by no other free guard, its target is recorded, and approvals come in intent order |
| GuardMove.ApprovedTargetsDiffer | src/sim/step.rs:270-275 | no two approved intents claim the same cell |
| GuardMove.RefusedIntentsConflict | src/sim/step.rs:265-272 | an intent is refused only when another free guard holds its target or an earlier approved intent claimed it |
| GuardMove.ApproveIntents | src/sim/step.rs:256-276 | phase 2 returns the approved intents of the conflict-resolution rule |
| GuardMove.AppliedSteps | src/sim/step.rs:279-287 | when approved steps belong to distinct guards, each such guard takes exactly its own step and every other guard is untouched |
| GuardMove.ApplyMoves | src/sim/step.rs:279-287 | phase 3 moves each approved guard onto its target, turns it toward the step and restarts its cooldown, and changes nothing else |
| GuardMove.TrapsDecideState | src/domain/physics.rs:221-251 | of the other guards, only the trapped ones and their cells decide a guard's resolved state |
| GuardMove.StatesResolved | src/sim/step.rs:290-301 | recomputing states in order changes only the states of free guards, keeps dead and trapped guards as they were, and gives each free guard the state its cell calls for, as if all were resolved at once |
| GuardMove.ResolveGuardStates | src/sim/step.rs:290-301 | phase 4 in place leaves the guards as `StatesUpTo` gives them |
| GuardMove.ContactStep | src/sim/step.rs:307-325 | scanning one pair adds exactly that pair's contact |
| GuardMove.ContactAllDone | src/sim/step.rs:305-327 | once every pair is scanned, the contacts found are exactly the guards touching another free guard |
| GuardMove.DetectContacts | src/sim/step.rs:305-327 | phase 5 starts the separation timer of every free guard that touches another free guard and whose timer has run out, and changes nothing else |
| GuardMove.ScanPair | src/sim/step.rs:310-324 | one pair in contact marks both of its guards |
| GuardMove.ResolveGuardMovement | src/sim/step.rs:198-331 | the whole pass returns the AI's step for every guard, each (0, 0) or a unit step and each the answer of that guard's AI mode (`PassChoices`), and leaves the world as `GuardsMoved` describes for those steps |
| GuardMove.PlacesDecideBlocking | src/domain/physics.rs:146-157 | only guards' cells and states decide whether a cell is blocked |
| GuardMove.WalkedStep | src/sim/step.rs:198-287 | after phases 0 to 3 a guard either stays, only counting down its cooldown, or takes the step it filed onto an in-bounds passable cell no other free guard held, facing the step and waiting the configured rate; its separation timer counts down and its state is kept |
| GuardMove.ApprovedStepIsFiled | src/sim/step.rs:259-276 | an approved step is the intent the guard filed, onto a cell no other free guard held |
| GuardMove.ApprovedStepsDiffer | src/sim/step.rs:270-275 | no two guards' approved steps share a target |
| GuardMove.WalkedTargetsDiffer | src/sim/step.rs:256-287 | two guards that both moved did not move onto the same cell |
| GuardMove.RefusedLosesToEarlier | src/sim/step.rs:270-272 | an intent refused although no free guard held its target lost to an earlier approved intent for the same cell |
| GuardMove.WalkedFirstWins | src/sim/step.rs:256-287 | first come, first served: a legal step onto a cell no free guard holds is taken unless an earlier guard in the list took a step onto the same cell |
| GuardMove.ConsiderGuard | src/sim/step.rs:212-252 | phase 1 for one guard: its cooldown counted down, and an AI step only for a free guard whose cooldown has run out, the answer of the AI mode its separation timer selects; (0, 0) for any other guard |
| GuardMove.ApprovedGuardsIncrease | src/sim/step.rs:256-276 | approved intents belong to distinct guards, in increasing guard order |
| GuardMove.WalkedByStep | src/sim/step.rs:279-287 | after phase 3 a guard is the guard after phase 1, moved by its approved step when it has one |
| GuardMove.ApprovedIntentTaken | src/sim/step.rs:279-287 | the guard of every approved intent ends phase 3 on that intent's target |
| GuardMove.ContactedKeepsPlaces | src/sim/step.rs:305-327 | contact detection moves no guard and changes no state, so it does not change who touches whom |
| GuardMove.WalkedKeepsTraps | src/sim/step.rs:212-216 | phases 0 to 3 move no dead or trapped guard and change no state |
| GuardMove.GuardMoveOutcome | src/sim/step.rs:198-331 | a dead or trapped guard keeps its state, a free guard takes the state its new cell calls for, and a guard whose timer ran out is put into separation for 10 ticks exactly when it ends the pass touching another free guard, so every touching pair ends with running timers |
| GuardMove.GuardMovesKeepApart | src/sim/step.rs:198-331 | if no two free guards shared a cell before the pass, none share one after it |
| GuardMove.GuardsMovedKeepsInv | src/sim/step.rs:198-331 | the pass keeps the world invariant, and no guard gains or loses gold |
| Gravity.LivingAreListed | src/sim/step.rs:341-343 | every guard that is not dead has its cell in the trap-position list |
| Gravity.ListedAreLiving | src/sim/step.rs:341-343 | only cells of guards that are not dead are listed |
| Gravity.Collapsed | src/sim/step.rs:344-351 | collapsing trap bricks under listed cells keeps the tile layer a grid |
| Gravity.CollapsedCells | src/sim/step.rs:344-351 | a cell changes exactly when it is a trap brick directly under a listed cell, and then it becomes Empty |
| Gravity.CollapsedKeepsInv | src/sim/step.rs:344-351 | collapsing trap bricks keeps the world invariant |
| Gravity.TrapBricksGiveWayUnderActors | src/sim/step.rs:338-352 | afterwards no living player or living guard stands on a trap brick, the only cells that changed were trap bricks under one of them and are now Empty, and the top row never changes |
| Gravity.CollectTrapPositions | src/sim/step.rs:339-343 | the living player's cell first, then the cell of every guard that is not dead, in guard order |
| Gravity.CollapseUnder | src/sim/step.rs:344-351 | the collapse loop in place changes only the tiles, as `Collapsed` gives them, and reports each collapse |
| Gravity.ResolveTrapBricks | src/sim/step.rs:338-352 | the pass keeps the invariant and changes only the tiles, as `Collapsed` gives them for the living actors' cells |
| Gravity.PlayerFell | src/sim/step.rs:360-396 | the player keeps its column and drops at most one row; a drop happens only outside a refilling hole, without support (tiles, open holes and standing guards considered) and onto a passable cell, sets Falling and PlayerFallStart is reported unless already falling; a falling player with support lands in a state other than Falling with its cooldown reset; only the player changes |
| Gravity.PlayerDropsWhenFree | src/sim/step.rs:360-396 | conversely, a player outside a refilling hole, without support and above a passable cell on the map always drops one row |
| Gravity.PlayerGravity | src/sim/step.rs:360-396 | the player's gravity in place leaves the world and events as `PlayerFell` describes |
| Gravity.PlayerFellKeepsInv | src/sim/step.rs:360-396 | the player's gravity keeps the invariant |
| Gravity.GuardFell | src/sim/step.rs:399-465 | dead and trapped guards are left alone; an active guard in an open hole no other guard is trapped in becomes InHole; otherwise the guard keeps its column and drops at most one row, only outside a hole, without support and onto a passable cell, and an active guard outside a hole without support always drops; an active guard never becomes Dead and no other guard changes |
| Gravity.GuardGravity | src/sim/step.rs:399-465 | one guard's gravity in place leaves the world as `GuardFell` describes |
| Gravity.UnsupportedGuardDrops | src/sim/step.rs:432-464 | an active guard without support is above a passable on-map cell that no trapped guard fills, so it always drops |
| Gravity.GuardFellKeepsInv | src/sim/step.rs:399-465 | one guard's gravity keeps the invariant |
| Gravity.GuardsFellUpTo | src/sim/step.rs:399-465 | after the first k guards' gravity the guards from k on are untouched and only tiles and guards changed |
| Gravity.GuardsFellUpToKeepsInv | src/sim/step.rs:399-465 | the guard gravity loop keeps the invariant |
| Gravity.GuardsDropAtMostOneRow | src/sim/step.rs:399-465 | under gravity every guard keeps its column and drops at most one row |
| Gravity.GravityKeepsInv | src/sim/step.rs:358-466 | the whole gravity pass keeps the invariant |
| Gravity.ResolveGravity | src/sim/step.rs:358-466 | the pass in place keeps the invariant and leaves the world and events as the player's and then every guard's gravity give them |
| Gravity.Caught | src/sim/step.rs:495-511 | a guard that is active and in an open hole with no other trapped guard becomes InHole at the same cell and is reported as GuardTrapped; otherwise nothing happens; no other guard changes |
| Gravity.CaughtUpTo | src/sim/step.rs:494-512 | after the first k hole-trap steps the guards from k on are untouched and only tiles and guards changed |
| Gravity.HoleFlagIgnoresTiles | src/domain/physics.rs:52-82 | the open-hole flag of a cell depends only on the map size and the hole grid |
| Gravity.CaughtKeepsTrapped | src/sim/step.rs:494-512 | a hole-trap step never frees a trapped guard |
| Gravity.CaughtMansHole | src/sim/step.rs:505-510 | after its step an active guard in an open hole has a trapped guard at its cell: itself or the one it stands on |
| Gravity.HoleTrapsMoveNoGuard | src/sim/step.rs:494-512 | the hole traps move no guard |
| Gravity.HoleTrapsLeaveNoHoleUnmanned | src/sim/step.rs:494-512 | after the hole traps every open hole that held an active guard holds a trapped guard |
| Gravity.CaughtKeepsInv | src/sim/step.rs:495-511 | one hole-trap step keeps the invariant |
| Gravity.CaughtUpToKeepsInv | src/sim/step.rs:494-512 | the hole-trap loop keeps the invariant |
| Gravity.TrapGuard | src/sim/step.rs:495-511 | one guard's hole-trap step in place leaves the world and events as `Caught` describes |
| Gravity.ResolveHoleTraps | src/sim/step.rs:494-512 | the pass in place keeps the invariant and leaves the world and events as every guard's hole-trap step gives them |
| Timers.TowardPlayer | src/sim/step.rs:690 | the side tried first is right exactly when the player is further right, left otherwise |
| Timers.EscapeChoice | src/sim/step.rs:684-740 | a side is chosen only if the guard can climb out to it; the side away from the player only when the side toward it is closed; none exactly when both sides are closed |
| Timers.LeftGold | src/sim/step.rs:724-731 | the guard leaves its gold on the given cell exactly when it carries gold and gold may rest there, and keeps it otherwise; nothing else changes |
| Timers.LeftGoldKeepsInv | src/sim/step.rs:724-731 | leaving gold moves it from the guard to the map: the gold in play is unchanged and the invariant kept |
| Timers.ClimbedGuard | src/sim/step.rs:717-722 | the guard stands one row up and one column to the chosen side, facing that way, with its gold |
| Timers.Climbed | src/sim/step.rs:717-731 | climbing out changes only the escaping guard and the tiles |
| Timers.Settled | src/sim/step.rs:733-737 | the guard takes the state the physics layer resolves at its cell and nothing else changes |
| Timers.EscapedTo | src/sim/step.rs:717-738 | an escape changes only the escaping guard and the tiles |
| Timers.EscapedToMoves | src/sim/step.rs:717-731 | the escaping guard ends one row up and one column to its side, facing that way; its gold is on the cell above the hole when gold may rest there, and otherwise the map is unchanged |
| Timers.ClimbedMoves | src/sim/step.rs:716-731 | before it settles, the climbing guard is one row up and one column to its side, facing that way; its gold is on the cell above the hole when gold may rest there, and otherwise the map is unchanged |
| Timers.EscapedToSettles | src/sim/step.rs:733-737 | once out, the guard is neither dead nor trapped, and is falling exactly when nothing supports it where it stands |
| Timers.Escaped | src/sim/step.rs:684-740 | with both sides closed, `try_escape` changes nothing |
| Timers.EscapeLandsStanding | src/sim/step.rs:684-740 | a guard that climbs out lands diagonally one row up, standing: not falling, trapped or dead |
| Timers.ClimbedKeepsSupport | src/sim/step.rs:703-707 | the support that allowed the escape is still there after the climb |
| Timers.ClimbedKeepsInv | src/sim/step.rs:717-731 | climbing out keeps the invariant and the gold in play |
| Timers.EscapedKeepsInv | src/sim/step.rs:684-740 | `try_escape` keeps the invariant and the gold in play |
| Timers.TryEscape | src/sim/step.rs:684-740 | `try_escape` in place leaves the world as `Escaped` describes |
| Timers.EscapeCellOnMap | src/sim/step.rs:693-695 | an escape cell lies on the map, one row up |
| Timers.ClimbOut | src/sim/step.rs:717-738 | the move half of an accepted escape, in place |
| Timers.StepUp | src/sim/step.rs:717-722 | the guard moves to the escape cell in place and nothing else changes |
| Timers.LeaveGold | src/sim/step.rs:724-731 | the gold drop of an escape in place leaves the world as `LeftGold` describes |
| Timers.SettleGuard | src/sim/step.rs:733-737 | the state update of an escape in place leaves the world as `Settled` describes |
| Timers.Unstuck | src/sim/step.rs:604-607 | a guard that is not trapped is left alone; a trapped guard with more than one tick left only counts down; at 0 it tries to escape, every tick until it can |
| Timers.Respawned | src/sim/step.rs:609-629 | only a dead guard changes, and only that guard |
| Timers.RespawnOnlyWhenClear | src/sim/step.rs:609-629 | a dead guard comes back exactly when its timer reaches the respawn time and no other living guard is at (spawn column, row 1); it comes back there, standing and without gold, reported as GuardRespawned; otherwise its timer grows by one and it stays dead |
| Timers.GuardTimed | src/sim/step.rs:603-630 | both timers of one guard change only that guard and the tiles |
| Timers.TimedUpTo | src/sim/step.rs:603-630 | after the first k guards' timers the guards from k on are untouched |
| Timers.UnstuckKeepsInv | src/sim/step.rs:604-607 | the escape timer keeps the invariant and the gold in play |
| Timers.RespawnedKeepsInv | src/sim/step.rs:609-629 | a respawn keeps the invariant, its carried gold being dropped from play |
| Timers.GuardTimedKeepsInv | src/sim/step.rs:603-630 | one guard's timers keep the invariant |
| Timers.TimedUpToKeepsInv | src/sim/step.rs:603-630 | the guard-timer loop keeps the invariant |
| Timers.TickGuardTimers | src/sim/step.rs:603-630 | the guard-timer loop in place leaves the world and events as `TimedUpTo` gives them |
| Timers.TickGuard | src/sim/step.rs:604-629 | one guard's timers in place |
| Timers.TickStuck | src/sim/step.rs:604-607 | the escape timer of one guard in place |
| Timers.TickRespawn | src/sim/step.rs:609-629 | the respawn timer of one guard in place |
| Timers.SealGuard | src/sim/step.rs:654-673 | a refill's effect on one guard changes only that guard, the tiles and the score |
| Timers.BuriedUpTo | src/sim/step.rs:654-673 | after the first k guards the rest are untouched |
| Timers.SealGuardBuries | src/sim/step.rs:654-673 | a guard trapped in the refilled hole dies and adds 50 to the score; any other guard keeps its state and the score; no guard is left trapped there; only the cell above the hole can change |
| Timers.BuriedUpToBuries | src/sim/step.rs:654-673 | over all guards the score grows by 50 per trapped guard, each of them dies, and none is left trapped in the hole |
| Timers.BuriedUpToTiles | src/sim/step.rs:654-673 | the only tile the guards' part of a refill can change is the cell above the hole |
| Timers.SealedAt | src/sim/step.rs:638-673 | a refill changes only the tiles, guards, score, player and phase |
| Timers.SealBuries | src/sim/step.rs:638-673 | the refilled cell holds its base tile, a living player in it dies and the phase becomes Dying, every trapped guard in it dies, and the score grows by 50 for each |
| Timers.SealGuardGold | src/sim/step.rs:661-667 | a trapped guard's gold is placed above the hole when it may rest there and is otherwise lost, while still counted in the gold remaining |
| Timers.SealGuardKeepsInv | src/sim/step.rs:654-673 | a refill's effect on one guard keeps the invariant |
| Timers.BuriedUpToKeepsInv | src/sim/step.rs:654-673 | the refill's guard loop keeps the invariant |
| Timers.SealedAtKeepsInv | src/sim/step.rs:638-673 | a refill keeps the invariant |
| Timers.BuryGuard | src/sim/step.rs:654-673 | one guard's part of a refill in place |
| Timers.SealHole | src/sim/step.rs:638-673 | one refill in place leaves the world and events as `SealedAt` gives them |
| Timers.BuryAll | src/sim/step.rs:654-673 | every guard's part of a refill in place |
| Timers.TickedHoles | src/sim/step.rs:633-636 | every hole ticks once and the list keeps its length |
| Timers.DoneUpToIsExact | src/sim/step.rs:633-636 | the removal list holds, in increasing order, exactly the holes no longer active |
| Timers.ActivesAreActive | src/sim/step.rs:637-675 | the holes kept are exactly the active ones |
| Timers.HoleGridIsUnique | src/domain/physics.rs:257-267 | a hole grid is determined by the holes and the map size |
| Timers.HolesAged | src/sim/step.rs:632-680 | the hole lifecycle keeps the map and the base layer |
| Timers.Timed | src/sim/step.rs:602-681 | `resolve_timers` keeps the map and the base layer |
| Timers.HolesAgedKeepsGrid | src/sim/step.rs:632-680 | the holes left are exactly those still active after their tick, and the hole grid still marks exactly the active holes |
| Timers.NoneExpiredKeepsGrid | src/sim/step.rs:633-679 | when no hole finishes this tick every hole stays, and the hole grid, which is not rebuilt, still marks exactly the active holes |
| Timers.SealedFromHoles | src/sim/step.rs:637-675 | after the refills the list holds exactly the active holes |
| Timers.SealedFrom | src/sim/step.rs:637-675 | the refills, the last listed first, keep the tile layers consistent and the level the same, and change only the tiles, guards, score, player, phase and hole list, which ends as the holes not yet removed |
| Timers.HoleGridOf | src/sim/world.rs:263-265 | the grid built from the holes is one that marks exactly their active cells |
| Timers.SealedFromKeepsInv | src/sim/step.rs:637-675 | the refill loop keeps the invariant |
| Timers.HolesAgedKeepsInv | src/sim/step.rs:632-680 | the hole lifecycle keeps the invariant |
| Timers.TimedKeepsInv | src/sim/step.rs:602-681 | `resolve_timers` keeps the invariant |
| Timers.RemoveStep | src/sim/step.rs:674 | removing the next listed hole from the back takes the reverse pass one step further |
| Timers.RemoveFinish | src/sim/step.rs:637-675 | at the end of the reverse pass only the active holes are left |
| Timers.TickHoles | src/sim/step.rs:633-636 | the tick loop ticks every hole in place and returns the inactive ones in increasing order |
| Timers.SealDone | src/sim/step.rs:637-675 | the refill loop in place handles the listed holes, the last first |
| Timers.SealStep | src/sim/step.rs:638-674 | one refill and removal in place takes the reverse pass one step |
| Timers.AgeHoles | src/sim/step.rs:632-680 | the hole lifecycle in place leaves the world and events as `HolesAged` gives them |
| Timers.ResolveTimers | src/sim/step.rs:602-681 | `resolve_timers` in place leaves the world and events as `Timed` gives them |
| Pickup.PlayerPickedUp | src/sim/step.rs:519-531 | a player not on gold changes nothing; a player on gold takes it: one gold less remains, the score grows by 100, the cell becomes Empty, the exit is enabled once no gold remains, and GoldPicked is reported, followed by AllGoldCollected for the last gold |
| Pickup.Collected | src/sim/step.rs:521-531 | taking the gold empties the cell, decrements the remaining count without underflow, adds 100, only reveals ladders besides, and enables the exit exactly when the last gold is taken |
| Pickup.PlayerPickedUpAccounts | src/sim/step.rs:519-531 | the player's pickup keeps the invariant and removes from play exactly the gold it takes off the remaining count |
| Pickup.TakenGoldKeepsInv | src/sim/step.rs:519-531 | a gold cell under the player is counted, so the remaining count is at least one, and taking the gold keeps the invariant and removes exactly one piece of gold from play |
| Pickup.GuardPickedUp | src/sim/step.rs:532-541 | an active guard with empty hands on a Gold cell takes the gold with a fresh carry timer and the cell becomes Empty; the guard does not move, no other guard changes and the gold in play is unchanged |
| Pickup.GuardsPickedUpTo | src/sim/step.rs:532-541 | after the first k guards the rest are untouched and the gold in play is unchanged |
| Pickup.GuardPickedUpKeepsInv | src/sim/step.rs:532-541 | a guard's pickup keeps the invariant |
| Pickup.GuardsPickedUpToKeepsInv | src/sim/step.rs:532-541 | the guard pickup loop keeps the invariant |
| Pickup.GoldPickupAccounts | src/sim/step.rs:518-542 | the pass keeps the invariant, the gold leaving play is exactly what the remaining count drops by, and that count drops by at most one |
| Pickup.PlayerPickUp | src/sim/step.rs:519-531 | the player's pickup in place leaves the world and events as `PlayerPickedUp` gives them |
| Pickup.CollectGold | src/sim/step.rs:521-531 | taking the gold in place leaves the world and events as `Collected` gives them |
| Pickup.TakeGold | src/sim/step.rs:522-524 | the cell empties, one gold less remains and the score grows by 100 |
| Pickup.GuardPickUp | src/sim/step.rs:533-540 | a guard's pickup in place |
| Pickup.ResolveGoldPickup | src/sim/step.rs:518-542 | the pass in place keeps the invariant and leaves the world and events as `GoldPickup` gives them |
| Pickup.Dropped | src/sim/step.rs:551-565 | a dead guard or one without gold is left alone; otherwise its carry count grows by one, and once it reaches the limit the gold is put down on the guard's cell if gold may rest there, reported as GuardDroppedGold; the guard does not move and the gold in play is unchanged |
| Pickup.DroppedUpTo | src/sim/step.rs:550-565 | after the first k guards the rest are untouched and the gold in play is unchanged |
| Pickup.GoldDropped | src/sim/step.rs:546-566 | a carry limit of zero disables the pass |
| Pickup.DroppedKeepsInv | src/sim/step.rs:551-565 | a guard's drop step keeps the invariant |
| Pickup.DroppedUpToKeepsInv | src/sim/step.rs:550-565 | the drop loop keeps the invariant |
| Pickup.GuardDrop | src/sim/step.rs:551-565 | a guard's drop step in place |
| Pickup.ResolveGuardGoldDrop | src/sim/step.rs:546-566 | the pass in place keeps the invariant and leaves the world and events as `GoldDropped` gives them |
| Exit.OnlyLaddersTrans | src/sim/step.rs:763-824 | revealing ladders twice only reveals ladders |
| Exit.SameGoldCount | src/sim/step.rs:763-824 | maps with the same gold cells hold the same gold |
| Exit.LaddersKeepInv | src/sim/step.rs:763-824 | revealing ladders keeps the invariant and the gold on the map |
| Exit.Revealed | src/sim/step.rs:767-776 | revealing listed cells only turns Empty cells into hidden ladders |
| Exit.RevealedCells | src/sim/step.rs:767-776 | exactly the listed in-bounds Empty cells become hidden ladders |
| Exit.FirstClimbableFrom | src/sim/step.rs:789-792 | the first climbable row at or below y in column x, with no climbable cell above it in that range |
| Exit.AutoColumnsUpTo | src/sim/step.rs:780-784 | the auto-detected columns are exactly the columns containing a climbable cell |
| Exit.FillAbove | src/sim/step.rs:793-800 | filling the rows above k turns exactly the Empty cells of column x there into hidden ladders, and reports whether any cell changed |
| Exit.ExtendedColumn | src/sim/step.rs:787-801 | extending one column only reveals ladders, and changes nothing when it reports no change |
| Exit.ExtendedColumns | src/sim/step.rs:786-801 | extending the listed columns only reveals ladders, and changes nothing when it reports no change |
| Exit.ExtendedColumnReachesTop | src/sim/step.rs:787-801 | a column with no climbable cell is unchanged; otherwise every Empty cell above its topmost climbable cell becomes a hidden ladder and every other cell is kept |
| Exit.ExitOpened | src/sim/step.rs:763-824 | the exit is enabled and only Empty cells become hidden ladders; with listed hidden-ladder cells exactly those are revealed |
| Exit.ExitOpenedKeepsInv | src/sim/step.rs:763-824 | opening the exit keeps the invariant and the gold on the map |
| Exit.RevealListed | src/sim/step.rs:767-776 | the listed cells revealed in place |
| Exit.TopLadderRow | src/sim/step.rs:789-792 | the downward scan finds the topmost climbable row of the column |
| Exit.AutoDetectColumns | src/sim/step.rs:780-784 | the column scan returns every column with a climbable cell, ascending |
| Exit.FillColumn | src/sim/step.rs:795-800 | the column fill in place, reporting whether any cell was placed |
| Exit.ExtendColumns | src/sim/step.rs:786-801 | the listed columns extended in place, reporting whether any cell was placed |
| Exit.EnableExit | src/sim/step.rs:763-824 | `enable_exit` in place leaves the world as `ExitOpened` describes |
| Movement.LegalStepLandsOnMap | src/sim/step.rs:148-157 | a step the tile rules allow lands on a passable cell of the map |
| Movement.ArrivalState | src/sim/step.rs:162-174 | after a step the tile rules decide the player's state, except that a fall over a standing guard becomes standing: the player is left falling only without any support, and a dead or trapped player keeps its state |
| Movement.PlayerMoved | src/sim/step.rs:126-175 | only the player changes; a dead, falling or buried player does nothing; a player on cooldown only counts it down; otherwise a pressed key the tile rules allow moves the player exactly one cell that way onto a passable cell, restarts the cooldown and sets the arrival state, and no other case moves it |
| Movement.Stepped | src/sim/step.rs:158-174 | a legal step moves the player one cell that way onto a passable cell, restarts its cooldown and sets the arrival state; only the player changes |
| Movement.ResolvePlayerMovement | src/sim/step.rs:126-175 | the pass in place leaves the world as `PlayerMoved` describes |
| Movement.TakeStep | src/sim/step.rs:158-174 | a legal step in place |
| Movement.PlayerMovedKeepsInv | src/sim/step.rs:126-175 | moving the player keeps the invariant |
| Step.ResolveEnemyCollision | src/sim/step.rs:569-596 | the player dies, with one PlayerKilled event, exactly when it is alive and an active guard stands on its cell or directly above it; otherwise nothing changes; the result tells the tick to stop |
| Step.CaughtFromAboveOrLevel | src/sim/step.rs:577-593 | a caught player was caught by an active guard in its column on its own row or the row above: a guard below never kills |
| Step.Won | src/sim/step.rs:746-757 | a living player on the top row with the exit enabled clears the stage: phase LevelOutro, 500 points and StageCleared; otherwise nothing changes |
| Step.ResolveWin | src/sim/step.rs:746-757 | the pass in place leaves the world and events as `Won` gives them |
| Step.RespawnedAll | src/sim/step.rs:850-857 | every guard is sent back, and the list keeps its length |
| Step.RespawnedCarryNothing | src/sim/step.rs:850-857 | after a restart no guard carries gold |
| Step.RestartedKeepsInv | src/sim/step.rs:832-862 | a restart starts a fresh round of the same level: the invariant holds, both gold counts equal the gold on the reset map, no guard carries gold, there are no holes or digs, the exit is closed, and the guards and the level as loaded are kept |
| Step.RestartIsIdempotent | src/sim/step.rs:832-862 | restarting twice is restarting once |
| Step.CountGold | src/sim/step.rs:843-847 | the counting loop returns the number of Gold cells of the map |
| Step.RespawnGuards | src/sim/step.rs:850-857 | the guard loop sends every guard back to its spawn |
| Step.RestartLevel | src/sim/step.rs:832-862 | `restart_level` in place: the map as loaded, no holes or digs, the exit closed, the gold counts recomputed, the player alive and standing at its spawn with no cooldown, and every guard back at its spawn, standing, empty-handed, timers cleared and a full cooldown |
| Step.ResetBoard | src/sim/step.rs:833-848 | the board part of a restart in place |
| Step.Opened | src/sim/step.rs:34-43 | the opening of a tick keeps the invariant |
| Step.Prepared | src/sim/step.rs:34-44 | the front of a tick keeps the invariant |
| Step.Settled | src/sim/step.rs:46-48 | trap bricks, gravity and hole traps keep the invariant |
| Step.GoldMoved | src/sim/step.rs:49-50 | gold pickup and drop keep the invariant |
| Step.GoldDroppedKeepsInv | src/sim/step.rs:546-566 | the gold-drop pass keeps the invariant |
| Step.Finished | src/sim/step.rs:51-53 | the end of a tick keeps the invariant |
| Step.Step | src/sim/step.rs:30-56 | `step` in place keeps the invariant, returns the events and the AI's steps (in Playing one per guard, each the answer of that guard's AI mode on the world the earlier passes prepared), and leaves the world and events as the passes in the source's order give them, stopping after a fatal collision |
| Step.PrepareTick | src/sim/step.rs:34-44 | the front of a tick in place |
| Step.OpenTick | src/sim/step.rs:34-43 | the tick counter, the dig, the dig progress and the hole-grid rebuild in place |
| Step.AdvanceTick | src/sim/step.rs:34 | the tick counter grows by one and nothing else changes |
| Step.OpenHoles | src/sim/step.rs:42-43 | finished digs open and the hole grid is rebuilt from the holes, in place |
| Step.FinishTick | src/sim/step.rs:51-53 | the end of a tick in place |
| Step.SettleWorld | src/sim/step.rs:46-48 | trap bricks, gravity and hole traps in place |
| Step.MoveGold | src/sim/step.rs:49-50 | gold pickup and drop in place |
| Step.PreparedKeepsLevel | src/sim/step.rs:34-44 | the front of a tick plays on the same level and advances the tick counter by one |
| Step.SettledKeepsLevel | src/sim/step.rs:46-48 | the middle of a tick plays on the same level and keeps the tick counter |
| Step.GoldMovedKeepsLevel | src/sim/step.rs:49-50 | the gold passes play on the same level, never raise the gold left, and keep the tick counter |
| Step.FinishedKeepsLevel | src/sim/step.rs:51-53 | the end of a tick plays on the same level and keeps the tick counter |
| Step.StepKeepsLevel | src/sim/step.rs:30-56 | a tick keeps the invariant and the level: size, map as loaded, guard count, speeds and gold total stay, and the gold left never grows; outside Playing it changes and reports nothing; in Playing the tick counter grows by exactly one |
| Save.RestoredPlayer | src/sim/save.rs:204-211 | the player a snapshot restores is alive, whatever it was when captured |
| Save.RestoreKeepsSession | src/sim/save.rs:198-248 | restoring a snapshot keeps the base layer, speeds, phase, score, lives and level numbers, and leaves a hole grid that is exactly the grid of the restored holes |
| Save.CaptureOfRestore | src/sim/save.rs:149-248 | capturing a world just restored from a snapshot gives that snapshot back |
| Save.RestoreOfCapture | src/sim/save.rs:149-248 | restoring a world's own snapshot changes only the player's liveness and the hole grid, so a live player in a world whose hole grid matches its holes comes back unchanged |
| Save.CopySnapshot | src/sim/save.rs:198-243 | every field the snapshot carries is copied into the world, the player revived, and nothing else changes |
| Save.RestoreSnapshot | src/sim/save.rs:198-245 | the world after the restore is the copied world with the hole grid rebuilt from the restored holes |
| Save.TileToChar | src/sim/save.rs:329-340 | a tile is written as a space exactly when it is Empty, and no tile is written as another whitespace character |
| Save.CharToTile | src/sim/save.rs:342-353 | any character that is not one of a tile's map characters reads as Empty |
| Save.CharToTileInvertsTileToChar | src/sim/save.rs:329-353 | reading back the character written for a tile gives that tile, for every tile |
| Save.FacingStr | src/sim/save.rs:355-357 | a facing is written as one character that is neither whitespace nor a comma |
| Save.ParseFacing | src/sim/save.rs:359-361 | a facing reads as Left exactly when the text is "L" |
| Save.ParseFacingInvertsFacingStr | src/sim/save.rs:355-361 | reading back the written facing gives that facing |
| Save.StateStr | src/sim/save.rs:363-372 | an actor state is written as one character that is neither whitespace nor a comma |
| Save.ParseState | src/sim/save.rs:374-384 | an unknown state code reads as OnGround |
| Save.ParseStateInvertsStateStr | src/sim/save.rs:363-384 | reading back the written state gives that state, for every state |
| Save.RowText | src/sim/save.rs:431-434 | a tile row is written one character per tile, each the tile's map character |
| Save.Columns | src/sim/save.rs:423-426 | each exit column is written as its number, in order |
| Save.GuardLines | src/sim/save.rs:410-416 | one `guard=` line per guard, in order |
| Save.AppendLines | src/sim/save.rs:386-440 | appending lines one at a time gives the text of all lines each ended by a newline |
| Save.Serialize | src/sim/save.rs:386-440 | the text written is the header lines followed, when there is a snapshot, by its lines in the fixed order of the format |
| Save.ParsePlayer | src/sim/save.rs:556-566 | a player record with fewer than five fields is refused |
| Save.ParseGuard | src/sim/save.rs:568-586 | a guard record with fewer than thirteen fields is refused |
| Save.ParseHole | src/sim/save.rs:588-597 | a hole record with fewer than four fields is refused |
| Save.ParseDig | src/sim/save.rs:599-608 | a dig record with fewer than four fields is refused |
| Save.ParsedColumns | src/sim/save.rs:512-515 | the exit columns read are among the fields given, never more of them |
| Save.RowOf | src/sim/save.rs:522-524 | a tile row is read one tile per character, each character through `char_to_tile` |
| Save.KeyOf | src/sim/save.rs:446-553 | the key found on a line is a prefix of it ending in '=' |
| Save.KeyOfIsPrefix | src/sim/save.rs:469-525 | for a key of the format, `strip_prefix` succeeding is the same as the line's text up to its first '=' being that key |
| Save.AbsorbKeepsRowsWhole | src/sim/save.rs:466-467 | the corrected line reader and the one as written agree on every line except a tile row, which the corrected reader takes untrimmed and the one as written takes after `trim_end` |
| Save.NotSnapshotFlag | src/sim/save.rs:469-471 | a line starting with any other key of the format is never taken for the snapshot flag |
| Save.PastFlag | src/sim/save.rs:469-525 | a line starting with a snapshot key is read as that key's entry with the rest of the line as its value |
| Save.TrimKeepsKey | src/sim/save.rs:466-467 | trimming a line does not remove a key it starts with |
| Save.Finish | src/sim/save.rs:527-553 | a save is produced exactly when level, score and lives were all read, carrying those three values; it holds a snapshot exactly when the snapshot flag was seen, the player line parsed and there is at least one tile row |
| Save.ParseSave | src/sim/save.rs:446-553 | corrected reader (see ## Findings): the loop over the lines produces what reading the whole text line by line and finishing gives |
| SaveRoundTrip.NumReadsBack | src/sim/save.rs:386-440 | a number written in decimal reads back as that number at any width it fits |
| SaveRoundTrip.JoinOfWords | src/sim/save.rs:556-608 | fields joined with commas stay on one line and splitting at the commas gives the same fields back |
| SaveRoundTrip.PlayerFieldsReadBack | src/sim/save.rs:400-402 | the player record as written is read back by `parse_player` as that player, when its numbers fit |
| SaveRoundTrip.GuardFieldsReadBack | src/sim/save.rs:404-409 | the guard record as written is read back by `parse_guard` as that guard, when its numbers fit |
| SaveRoundTrip.HoleFieldsReadBack | src/sim/save.rs:412-415 | the hole record as written is read back by `parse_hole` as that hole |
| SaveRoundTrip.DigFieldsReadBack | src/sim/save.rs:417-420 | the dig record as written is read back by `parse_dig` as that dig |
| SaveRoundTrip.RowTextReadsBack | src/sim/save.rs:431-434 | a tile row's text read back tile by tile gives the row |
| SaveRoundTrip.ParsedColumnsOfNums | src/sim/save.rs:423-426 | exit columns written as numbers read back as the same columns |
| SaveRoundTrip.SpawnReadsBack | src/sim/save.rs:396 | the player spawn line reads back as that spawn, whatever the previous one |
| SaveRoundTrip.AbsorbHeader | src/sim/save.rs:388-390 | the three header lines set level, score and lives and nothing else |
| SaveRoundTrip.AbsorbHead | src/sim/save.rs:392-402 | the snapshot's first lines set the snapshot flag and each scalar field and the player to what was written |
| SaveRoundTrip.AbsorbGuards | src/sim/save.rs:404-409 | the guard lines append the written guards, in order |
| SaveRoundTrip.AbsorbHoles | src/sim/save.rs:411-415 | the hole lines append the written holes, in order |
| SaveRoundTrip.AbsorbDigs | src/sim/save.rs:417-420 | the dig lines append the written digs, in order |
| SaveRoundTrip.AbsorbColumns | src/sim/save.rs:423-426 | the exit columns line is written only for a non-empty list and gives that list back |
| SaveRoundTrip.AbsorbLadders | src/sim/save.rs:428-430 | the hidden ladder lines append the written positions, in order |
| SaveRoundTrip.AbsorbRows | src/sim/save.rs:431-434 | the tile row lines append every row whole, in order |
| SaveRoundTrip.AbsorbSnapshot | src/sim/save.rs:391-435 | reading all the lines of a snapshot sets every field the snapshot carries |
| SaveRoundTrip.SaveTextLines | src/sim/save.rs:386-440 | the lines of the written text are exactly the lines written |
| SaveRoundTrip.FinishSnapshot | src/sim/save.rs:527-553 | a snapshot read after its header is rebuilt whole by the final step of the parser |
| SaveRoundTrip.SaveRoundTrip | src/sim/save.rs:386-553 | what `serialize` writes the corrected parser (see ## Findings) reads back: level, score, lives and, when present, the whole snapshot, provided the numbers fit their Rust types and the snapshot has a tile row |
| SaveRoundTrip.ResumeFromSave | src/sim/save.rs:149-553 | corrected reader (see ## Findings): a world captured, saved, loaded and restored is the world it was, except that the player is alive and the hole grid is rebuilt from the holes |
| SaveRoundTrip.DropTrailingEmpty | src/sim/save.rs:466-467 | what trimming keeps of a row is a prefix that does not end in Empty, and only Empty tiles are cut |
| SaveRoundTrip.TrimEndOfRowLine | src/sim/save.rs:466-467 | trimming the end of a tile row line cuts exactly the trailing Empty tiles, written as spaces |
| SaveRoundTrip.SavedRowLosesTrailingEmpty | src/sim/save.rs:466-524 | the parser as written reads back a row without its trailing Empty tiles, so such a row comes back shorter; the corrected reader keeps the row whole |
| SaveRoundTrip.TrailingEmptyIsCut | src/sim/save.rs:466-524 | the row Brick, Empty is read back by the parser as written as the one-tile row Brick |
| SaveRoundTrip.RowLineAsWritten | src/sim/save.rs:466-524 | read by the parser as written, a tile row line appends the row without its trailing Empty tiles and changes nothing else |
| SaveRoundTrip.RowsAsWritten | src/sim/save.rs:466-524 | read by the parser as written, the tile row lines of a snapshot append its rows, each without its trailing Empty tiles, in order |
| SaveRoundTrip.AsWrittenAgreesOffRows | src/sim/save.rs:466-553 | on lines that are not tile rows the parser as written and the corrected reader read alike |
| SaveRoundTrip.NoRowsBeforeRows | src/sim/save.rs:386-440 | no line `serialize` writes before the tile rows is a tile row line |
| SaveRoundTrip.SaveRoundTripAsWritten | src/sim/save.rs:386-553 | what `serialize` writes, `parse_save` as written reads back: level, score, lives and the whole snapshot, except that every tile row loses its trailing Empty tiles |
| SaveRoundTrip.SaveRoundTripWhenRowsEndSolid | src/sim/save.rs:386-553 | when no tile row ends in Empty, `parse_save` as written reads back exactly what was written, as the corrected reader does |
| SaveRoundTrip.ResumeFromSaveAsWritten | src/sim/save.rs:149-553 | a world whose tile rows do not end in Empty, captured, saved, loaded by `parse_save` as written and restored, is the world it was, except that the player is alive and the hole grid is rebuilt |
| Text.TrimEndCutsSpace | src/sim/save.rs:467 | `trim_end` keeps the longest prefix of the line that does not end in whitespace, cutting whitespace only |
| Text.TrimStartCutsSpace | src/sim/level.rs:254 | trimming the start keeps the longest suffix that does not start with whitespace, cutting whitespace only |
| Text.TrimUnchanged | src/sim/save.rs:470 | text with no whitespace at either end is its own trim |
| Text.StripPrefix | src/sim/save.rs:469 | `strip_prefix` succeeds exactly when the prefix is there, and the prefix followed by the rest is the line |
| Text.Split | src/sim/save.rs:557 | `split` on a character gives at least one piece, none holding the separator, and the pieces joined give the text back |
| Text.SplitJoin | src/sim/save.rs:557 | splitting text made by joining parts free of the separator gives the parts back |
| Text.SplitWhitespace | src/sim/level.rs:345 | `split_whitespace` gives non-empty runs free of whitespace |
| Text.SplitWhitespaceJoin | src/sim/level.rs:345 | words joined by single spaces split back into the same words |
| Text.Lines | src/sim/save.rs:466 | `lines` gives no line exactly for empty text |
| Text.LinesOfUnlines | src/sim/save.rs:466 | reading back text written one line per newline gives the lines written, when none holds a newline or ends in a carriage return |
| Text.ByteLen | src/sim/level.rs:366-369 | a string's length in UTF-8 bytes is never less than its number of characters |
| Text.SpacesByteLen | src/sim/level.rs:368-369 | a run of n spaces is n bytes long |
| Text.ParseUint | src/sim/save.rs:470 | a parsed unsigned number never exceeds its type's largest value and comes from text starting with a digit or '+' |
| Text.ParseShowNat | src/sim/save.rs:388 | a number formatted in decimal parses back as that number whenever it fits the type |
| Level.LadderPairs | src/sim/level.rs:345-351 | the hidden ladders of an `@` line are at most one per word |
| Level.LadderPairsStep | src/sim/level.rs:345-351 | each word adds its pair when it has exactly two fields that both parse, and nothing otherwise |
| Level.ScanLinesStep | src/sim/level.rs:341-355 | the line loop handles each line in turn with the same rule |
| Level.DropBlankTail | src/sim/level.rs:358-360 | popping trailing blank rows keeps a prefix of the rows that does not end in a blank row, and every row cut is blank |
| Level.MaxByteLen | src/sim/level.rs:366 | the widest byte length is at least every row's and equals one row's; it is 0 for no rows |
| Level.PadRow | src/sim/level.rs:367-371 | padding extends a row with spaces only, to exactly the width when it was shorter, and keeps a row that is long enough |
| Level.PadRows | src/sim/level.rs:367-371 | every row is padded to the same width, in order |
| Level.ReadLadderPairs | src/sim/level.rs:345-351 | the loop over the words of an `@` line collects the pairs, in order |
| Level.ScanLevelLines | src/sim/level.rs:341-355 | corrected reader (see ## Findings): the loop over the lines gives the name, rows and hidden ladders that reading them in turn gives |
| Level.PopBlankRows | src/sim/level.rs:358-360 | the popping loop leaves the rows without their blank tail |
| Level.WidestRow | src/sim/level.rs:366 | the loop finds the widest row's byte length |
| Level.PadAll | src/sim/level.rs:367-371 | the loop pads every row to the width |
| Level.ParseLevelFile | src/sim/level.rs:336-378 | corrected reader (see ## Findings): the method gives the level the line-by-line reading, the blank-tail cut and the padding describe |
| Level.NameIsNotBlank | src/sim/level.rs:341-342 | the name taken from a name line is never empty |
| Level.ScanNoName | src/sim/level.rs:341-342 | without a name line no name is set |
| Level.ScanNameAt | src/sim/level.rs:341-342 | the first name line gives the name; later name lines do not change it |
| Level.LevelName | src/sim/level.rs:341-342 | corrected reader (see ## Findings): the level's name is the trimmed text after the '#' of its first name line, and "Unnamed Node" without one |
| Level.LevelRows | src/sim/level.rs:358-377 | corrected reader (see ## Findings): a file gives no level exactly when every map row is blank; otherwise its rows are the map rows up to the last non-blank one, each a prefix of its padded row, all padded with spaces to the byte length of the longest, and its hidden ladders are those of the `@` lines, in order |
| Level.NoLevelIffBlank | src/sim/level.rs:358-364 | a scan gives no level exactly when every map row is blank |
| Level.RowsPadded | src/sim/level.rs:358-371 | a level's rows are the map rows up to the last non-blank one, each a prefix of its row padded with spaces to the byte length of the longest, and its hidden ladders are the scan's |
| Level.LadderRowIsNameAsWritten | src/sim/level.rs:380-387 | the map row `#  H  #` is made of legend characters, yet the test as written calls it a name line and the intended test does not |
| Level.LadderRowTakenForName | src/sim/level.rs:341-342 | with the test as written, that row becomes the level's name "H  #" instead of a map row |
| Level.LadderRowKept | src/sim/level.rs:341-355 | with the intended test, that row stays a map row |
| Level.MapRowStaysRow | src/sim/level.rs:380-387 | with the intended test, every row starting with '#' and made of legend characters is kept as a map row |
| Level.IsNameLineAsWritten | src/sim/level.rs:380-387 | as written, a line is a name line exactly when some character after its first is a letter |
| Level.IsNameLine | src/sim/level.rs:380-387 | corrected test (see ## Findings): a name line exactly when the test as written accepts it and some character after the first is not a map character |
| Level.ScanStep | src/sim/level.rs:341-355 | a line sets the name only when none is set yet, and only from a '#' line, to the trimmed text after the '#'; the rows grow by at most that line and the hidden ladders only grow; a line that starts with neither '#' nor '@' is appended as a map row and changes nothing else |
| Level.ScanLine | src/sim/level.rs:341-355 | corrected reader (see ## Findings): a '#' line made of map characters is a map row; the name changes only from unset, by a name line |
| Level.ParseLevel | src/sim/level.rs:336-378 | corrected reader (see ## Findings): a level it gives has a name and at least one row, and its hidden ladders are those of the `@` lines |
| Level.ScanAsWrittenAgrees | src/sim/level.rs:341-387 | when no line is a '#' line that the test as written takes for a name and the corrected test does not, the reader as written and the corrected reader scan the lines alike |
| Level.ParseAsWrittenAgrees | src/sim/level.rs:336-387 | on such a file `parse_level_file` as written and the corrected reader give the same level |
| Level.ScanAgreesAfterName | src/sim/level.rs:340-342 | once the first line has named the level the name test is never asked again, so the scan as written and the corrected scan agree on every file that opens with a name line |
| Level.NameLineAgrees | src/sim/level.rs:340-342 | on a name line read first, both name tests accept it and the scan records a non-empty name |
| Level.NamedLineAgrees | src/sim/level.rs:340-342 | once a name is recorded, the scan as written and the corrected scan treat every later line alike and keep the name |
| Level.ParseAgreesAfterName | src/sim/level.rs:335-378 | `parse_level_file` as written reads the corrected level from every file whose first line is a name line |
| Level.PairWordReadsBack | convert_levels.py:226-253 | a hidden ladder written as `x,y` reads back as that pair |
| Level.LadderPairsOfWords | src/sim/level.rs:345-351 | the words written for a list of hidden ladders read back as that list |
| Level.LadderTextReadsBack | src/sim/level.rs:343-351 | an `@` line of space-separated `x,y` words gives back its pairs, in order |
| LevelPack.PackFoldStep | src/sim/level.rs:297-318 | the pack loop handles each line in turn with the same rule |
| LevelPack.ParsePackLevels | src/sim/level.rs:292-329 | corrected reader (see ## Findings): the loop over the lines, with its final flush, gives the levels that reading the lines in turn gives |
| LevelPack.PreambleIsSkipped | src/sim/level.rs:312-315 | lines before the first separator change nothing |
| LevelPack.PackIgnoresPreamble | src/sim/level.rs:312-315 | everything before the first `---` line is ignored |
| LevelPack.SectionIsCollected | src/sim/level.rs:317-318 | inside the levels, separator-free lines are added to the open section, each followed by a newline |
| LevelPack.FlushKeeps | src/sim/level.rs:302-306 | closing a section adds its level exactly when it is not empty and parses |
| LevelPack.FramedFold | src/sim/level.rs:297-318 | after `---`-framed sections every section but the last has been closed and the last is open |
| LevelPack.PackOfSections | src/sim/level.rs:292-329 | corrected reader (see ## Findings): a pack of a preamble and `---`-framed sections yields the level of every non-empty section that parses, in order |
| LevelPack.SeparatorCountStep | src/sim/level.rs:269-272 | each line adds one to the separator count exactly when it is `---` |
| LevelPack.ReadMeta | src/sim/level.rs:253-266 | the metadata loop gives the name, author and description that reading the lines in turn up to the first stop line gives |
| LevelPack.ParsePackInfo | src/sim/level.rs:247-289 | the method reports the metadata, the separator count (at least 1) and the file stem as a fallback name |
| LevelPack.MetaKeepsName | src/sim/level.rs:259-262 | once the pack has a name, later `##` lines do not change it |
| LevelPack.MetaNameAt | src/sim/level.rs:259-262 | the first plain `##` line with a name names the pack, provided no stop line comes before it |
| LevelPack.MetaNoName | src/sim/level.rs:253-266 | without a named `##` line before the metadata ends, no name is read |
| LevelPack.PackName | src/sim/level.rs:253-266 | the pack's name is its first named plain `##` line, provided no stop line comes before it |
| LevelPack.PackNameFallsBackToStem | src/sim/level.rs:275-281 | without such a line the pack is named after its file stem |
| LevelPack.LevelsBoundedBySeparators | src/sim/level.rs:297-318 | at every point the levels read, plus the open section, never outnumber the separators read |
| LevelPack.LevelCountBoundsLevels | src/sim/level.rs:269-272 | the level count is at least 1 and never below the number of levels the same text yields |
| LevelPack.SeparatorCountAppend | src/sim/level.rs:269-272 | the separator count of two runs of lines is the sum of their counts |
| LevelPack.FramedSeparators | src/sim/level.rs:269-272 | a pack body of framed sections has one separator per section |
| LevelPack.LevelCountOfSections | src/sim/level.rs:269-272 | for a preamble and framed sections the level count is the number of sections, 1 when there are none |
| LevelLoad.EmptyTiles | src/sim/level.rs:73 | the cleared map has the level's width and height |
| LevelLoad.LoadCell | src/sim/level.rs:86-117 | one cell of the grid pass keeps the map's shape |
| LevelLoad.LoadUpTo | src/sim/level.rs:84-119 | the map read so far keeps the level's shape |
| LevelLoad.PutGold | src/sim/level.rs:92-95 | a '$' sets the cell to Gold and counts one more gold, nothing else |
| LevelLoad.PutPlayer | src/sim/level.rs:96-99 | a 'P' puts a new player at the cell and makes it the spawn point, nothing else |
| LevelLoad.PutGuard | src/sim/level.rs:100-105 | an 'E' appends a guard with the next id and the configured move cooldown, nothing else |
| LevelLoad.PutExitColumn | src/sim/level.rs:106-110 | a '^' lists its column unless already listed, nothing else |
| LevelLoad.PutHiddenLadder | src/sim/level.rs:112-114 | a '~' records the cell as a hidden ladder, nothing else |
| LevelLoad.LoadCellInto | src/sim/level.rs:86-117 | the match on one character does what one cell of the pass describes |
| LevelLoad.GridPass | src/sim/level.rs:84-119 | the nested loop reads every row up to the map width, as the pass describes |
| LevelLoad.ClearFor | src/sim/level.rs:65-82 | before the pass the level's place, the map size, an empty map, no guards, holes, digs, exit columns or hidden ladders, no gold, the exit shut and the tick 0 |
| LevelLoad.FinishLoad | src/sim/level.rs:128-131 | the closing writes set the gold total to the gold counted, the base layer to the map, an empty hole grid and the level intro phase |
| LevelLoad.AddLaddersStep | src/sim/level.rs:122-126 | each extra hidden ladder is added unless it is already listed |
| LevelLoad.AddExtraLadders | src/sim/level.rs:122-126 | the loop adds the extra hidden ladders that are not listed yet, in order |
| LevelLoad.NoHoleGrid | src/sim/level.rs:130 | rebuilding the hole grid with no holes gives the all-false grid |
| LevelLoad.LoadLevel | src/sim/level.rs:56-139 | an index past the end of the levels only marks the game complete; otherwise the world becomes the level loaded, and it satisfies the world invariant `step` requires; a world that satisfied it still does |
| LevelLoad.LoadCellFields | src/sim/level.rs:86-117 | field by field, the only changes one character makes: its tile, one more gold for '$', a guard for 'E', its column for a new '^', the cell for '~', the player and spawn for 'P' |
| LevelLoad.LoadUpToTiles | src/sim/level.rs:84-119 | starting from an empty map, every cell read holds its character's tile and every other cell is Empty |
| LevelLoad.LoadCellGold | src/sim/level.rs:92-95 | reading a cell that was Empty keeps the gold counter equal to the gold on the map |
| LevelLoad.LoadUpToGold | src/sim/level.rs:84-119 | the gold counter is always the number of Gold cells on the map so far |
| LevelLoad.LoadUpToFrame | src/sim/level.rs:84-119 | the pass changes only the tiles, the gold counter, the player and spawn, the guards, the exit columns and the hidden ladders |
| LevelLoad.LoadUpToGuards | src/sim/level.rs:100-105 | one guard per 'E' cell read, in scan order, the i-th with id i and the configured cooldown |
| LevelLoad.LoadUpToExits | src/sim/level.rs:106-110 | each column holding a '^' cell is listed once, and no other |
| LevelLoad.LoadUpToLadders | src/sim/level.rs:112-114 | the '~' cells read are listed in scan order, and nothing else |
| LevelLoad.AddLaddersUnion | src/sim/level.rs:122-126 | adding the extra ladders keeps the list free of duplicates, keeps it as a prefix, and holds exactly the positions of both lists |
| LevelLoad.LoadUpToPlayer | src/sim/level.rs:96-99 | the player stands on the last 'P' cell read, or is left alone when there is none |
| LevelLoad.LoadedLevelMap | src/sim/level.rs:56-139 | after loading, the map has the level's size, each cell within a row holds that character's tile and others are Empty, the base layer equals it, the gold total and counter are the gold on the map, holes and digs are cleared, the tick is 0, the phase is the intro, and score, lives and speeds are kept |
| LevelLoad.LoadedLevelActors | src/sim/level.rs:84-119 | after loading, one guard per 'E' cell in scan order with id i, and the player on the last 'P' cell, or where it was without one |
| LevelLoad.LoadedLevelMarks | src/sim/level.rs:84-126 | after loading, the exit columns are the '^' columns, each once, and the hidden ladders are the '~' cells and the extra hidden ladders, each once |
| LevelLoad.SpawnedCarryNothing | src/sim/level.rs:100-105 | the guards the pass spawns carry no gold |
| LevelLoad.LoadedLevelIsValid | src/sim/level.rs:56-139 | a loaded level satisfies the world invariant: the layers are one grid, the gold on the map is the gold counted with no guard carrying any, no holes or digs, and every guard stands and spawns on the map |
| ConvertLevels.TileChar | convert_levels.py:16-24 | tile ids 0 to 6 map to the level text legend; id 0 and any unknown id give a blank |
| ConvertLevels.RunByteSplit | convert_levels.py:160-161 | a run-length byte is its tile in the upper three bits and its run in the lower five |
| ConvertLevels.NibbleSplit | convert_levels.py:145-146 | a packed byte holds the even column's tile in its high nibble and the odd column's in its low nibble |
| ConvertLevels.Reader.ReadByte | convert_levels.py:53-59 | the byte at the read position, which then advances; past the end, the error that ends the decoding, with the position unchanged |
| ConvertLevels.HeaderOf | convert_levels.py:62-80 | a header read in full ends within the data, after four bytes plus two per guard and per exit ladder, each count below 256 |
| ConvertLevels.ReadPairs | convert_levels.py:66-79 | a counted loop reads its pairs when the data holds them, and otherwise ends in the error |
| ConvertLevels.ReadHeader | convert_levels.py:62-80 | the header read leaves the position right after it |
| ConvertLevels.ProbeRuns | convert_levels.py:115-125 | the probe's walk never moves the cursor back |
| ConvertLevels.TryFormat | convert_levels.py:88-127 | a respawn count that succeeds gives that many respawn points, an encoding of 0, 1 or 2 and a body start inside the data that passes the body check |
| ConvertLevels.FirstFormat | convert_levels.py:85-135 | the format found is the first try that succeeds, all earlier tries failing; no format means every try failed |
| ConvertLevels.CheckRuns | convert_levels.py:110-127 | the loop checking a run-length body accepts exactly a body whose runs fill the 448 cells with known tiles |
| ConvertLevels.TryRespawns | convert_levels.py:88-127 | one pass of the probe's loop gives what trying that respawn count gives |
| ConvertLevels.ProbeFormat | convert_levels.py:85-135 | the probe tries the counts 4, 0, 1, 2, 3, 5, 6 in turn, keeps the first that succeeds and leaves the position past its encoding byte |
| ConvertLevels.BlankGrid | convert_levels.py:138 | the starting map is 28 by 16 |
| ConvertLevels.CursorCellOnMap | convert_levels.py:166-173 | every cursor below 448 writes a cell of the map, and that cell's cursor is the cursor again |
| ConvertLevels.CellCursorOnMap | convert_levels.py:166-173 | every cell of the map has a cursor below 448 that writes it |
| ConvertLevels.CursorWritesOneCell | convert_levels.py:166-177 | each cursor writes exactly one cell |
| ConvertLevels.RunCell | convert_levels.py:153-177 | a cell of a run-length body holds a known tile id |
| ConvertLevels.RunGrid | convert_levels.py:153-177 | a run-length body decodes to a 28 by 16 map |
| ConvertLevels.WriteRun | convert_levels.py:164-177 | writing a run sets exactly the cells of its cursors, up to the end of the map, to its tile when the tile is known, leaving all other cells alone |
| ConvertLevels.RunStep | convert_levels.py:155-177 | one run written keeps the loop's picture of the map and of the rest of the body |
| ConvertLevels.RunsDone | convert_levels.py:155-163 | when the map is full, the data ends or a zero run comes, the map is the decoded one |
| ConvertLevels.DecodeRuns | convert_levels.py:153-177 | the run-length loop gives the map its body decodes to |
| ConvertLevels.NibbleCell | convert_levels.py:140-151 | a cell of a packed body holds a known tile id |
| ConvertLevels.NibbleGrid | convert_levels.py:140-151 | a packed body decodes to a 28 by 16 map |
| ConvertLevels.NibbleStep | convert_levels.py:145-151 | one nibble sets its cell when it is a known id |
| ConvertLevels.NibblesDone | convert_levels.py:140-151 | sixteen rows read are the decoded map |
| ConvertLevels.DecodeNibbles | convert_levels.py:140-151 | the packed loop gives the decoded map when 224 bytes remain, and otherwise ends in the error |
| ConvertLevels.BaseRows | convert_levels.py:183-189 | the text rows are 28 by 16 |
| ConvertLevels.BuildRows | convert_levels.py:183-189 | the loop turns each tile into its character |
| ConvertLevels.PlaceAt | convert_levels.py:193-194 | a mark on the map keeps the rows 28 by 16 |
| ConvertLevels.PlaceEnemiesDraws | convert_levels.py:197-199 | every guard on the map is drawn as 'E', and no other cell changes |
| ConvertLevels.PlaceLaddersDraws | convert_levels.py:201-209 | every exit ladder on a blank cell is drawn as '~', every other exit ladder on the map is an overlap, and each overlap is an exit ladder on the map |
| ConvertLevels.OverlapsAreFiltered | convert_levels.py:201-209 | the overlaps are the exit ladders on the map, in order, whose cell is not blank or already holds an earlier exit ladder |
| ConvertLevels.PlaceEntities | convert_levels.py:191-209 | the overlay loops give the overlay |
| ConvertLevels.OverlayCells | convert_levels.py:183-209 | each cell shows a guard over the player over the tile, and '~' only for an exit ladder on a cell that would be blank; undrawn exit ladders are the overlaps |
| ConvertLevels.ShownChar | convert_levels.py:183-209 | a cell shows a legend character, and shows '~' exactly for an exit ladder that no player or guard stands on and whose tile is blank |
| ConvertLevels.Decode | convert_levels.py:49-223 | the decoding ends in the data error exactly when the header is short, and finds no format exactly when the header is whole and every respawn count fails |
| ConvertLevels.DecodeLevel | convert_levels.py:49-223 | the decoding method gives what decoding the data describes; a body whose format the probe accepts never runs out of data |
| ConvertLevels.DecodedLevel | convert_levels.py:211-223 | a decoded level carries the name, player, guards and exit ladders of its header, the respawn points and encoding of its format, and rows drawn cell by cell from its body and header |
| ConvertLevels.DecodedRowsLegend | convert_levels.py:183-209 | a decoded level has 16 rows of 28 characters, each from the legend |
| ConvertLevels.RunCellStopsAtZero | convert_levels.py:161-163 | bytes after a zero run change no cell |
| ConvertLevels.RunGridStopsAtZero | convert_levels.py:161-163 | a run-length map is fixed by the bytes up to its first zero run |
| ConvertText.DigitRun | convert_levels.py:236 | the digits after `level` are the longest run of digits there |
| ConvertText.DisplayName | convert_levels.py:230-240 | "Test Level" for the array `test`, and the array's own name for one that does not start with `level` |
| ConvertText.DisplayNameNumber | convert_levels.py:235-238 | for `level` followed by digits the name is "Level" and the number those digits spell, without leading zeros |
| ConvertText.TextLines | convert_levels.py:242-251 | the name line first, one `@` line only when there are overlaps, then the rows unchanged |
| ConvertText.LevelToText | convert_levels.py:226-253 | the text is the lines, each ended by a newline |
| ConvertText.JoinLinesIsUnlines | convert_levels.py:253 | joining with newlines and adding one is ending each line with a newline |
| ConvertText.ScanHead | src/sim/level.rs:341-351 | corrected reader (see ## Findings): the reader takes the name line for the name and the `@` line for the extra hidden ladders |
| ConvertText.ScanRows | src/sim/level.rs:341-355 | corrected reader (see ## Findings): every legend row after the head is kept as a map row, in order |
| ConvertText.TextReadsBack | src/sim/level.rs:336-378 | corrected reader (see ## Findings): the converter's text read by the game gives the display name, the rows and the overlaps as extra hidden ladders, when the name line is taken for a name |
| ConvertText.TestNameLine | convert_levels.py:230-231 | the array `test` gets a name line the game reads as "Test Level" |
| ConvertText.LevelNameLine | convert_levels.py:235-238 | an array `levelN` gets a name line the game reads as "Level N" |
| ConvertText.EvenRowsUnpadded | src/sim/level.rs:366-371 | rows all of one byte length are not padded |
| ConvertText.WideTextReadsBack | src/sim/level.rs:336-378 | corrected reader (see ## Findings): a level of 28-character legend rows reads back with its rows up to the last non-blank one, unpadded; WideTextReadsBackAsWritten states the same for the reader as written |
| ConvertText.TextLinesArePlain | convert_levels.py:242-253 | no line the converter writes holds a newline or ends in a carriage return, so the lines read back as written |
| ConvertText.TextReadsBackAsWritten | src/sim/level.rs:340-342 | `parse_level_file` as written reads the converter's text as the corrected reader does, whatever map rows follow, because the name line comes first |
| ConvertText.WideTextReadsBackAsWritten | src/sim/level.rs:336-387 | `parse_level_file` as written reads a level of 28-character legend rows back with its name, its rows up to the last non-blank one, unpadded, and its overlaps |
| ConvertText.DecodedTextReadsBack | convert_levels.py:49-253 | a decoded level written as text and read by the game, by `parse_level_file` as written and by the corrected reader alike, gives no level when all rows are blank, and otherwise its name, its rows up to the last non-blank one and its overlaps as extra hidden ladders |

## Left out

- Rendering, input, gamepad and sound (`src/ui/`). They are terminal drawing, device polling, wall-clock timing and floating-point audio.
- The game loop and menus in `src/main.rs`, and configuration loading in `src/config.rs`. The speed settings appear only as a plain record of tick constants (`World.SpeedConfig`).
- `src/sim/event.rs` appears only as the datatype of the events a tick emits.
- The filesystem parts of `src/sim/save.rs` (save directory, slot and legacy paths, `save_slot`, `load_slot`, `has_slot`, `save_game`, `load_save`, `has_save`, `delete_save`). They read and write files around `serialize` and `parse_save`, which are modelled.
- The filesystem parts of `src/sim/level.rs` (`load_levels_for_active_pack`, pack scanning, directory loading, search paths). `LevelLoad.LoadLevel` takes the active pack's level list as a parameter instead. `embedded_levels` is fixed level data.
- `convert_levels.py`: `parse_c_arrays` (a regular expression over a file), `main` (directory I/O) and the warnings printed to standard error.
- ConvertLevels.Decode: the branch for an unknown encoding byte (`convert_levels.py:178-180`) cannot be reached, because the probe accepts only 0, 1 and 2; the model proves this instead of modelling the branch. The reader's error can come only from a short header, which the model also proves.
- ConvertText.LevelToText: the unused `index` parameter of `level_to_text` is not modelled.
- The floating-point display helpers `Hole::close_progress`, `DigInProgress::progress` and `DigInProgress::stage` (`src/domain/entity.rs:130-133`, `181-192`).
- Entity.Tick: `Hole::tick` updates the hole in place; the model returns the new hole and the expiry flag instead, since holes live by value in the world's list and the passes that tick them rebuild that list.
- The on-screen messages (`set_message`, `message_timer`), the level name shown at load, and the animation counters (`anim_tick`, `anim_player_y`). They only feed the renderer.
- Camera re-centring in `restore_snapshot`, `restart_level` and `load_level`. The camera is modelled as its own class (`World.Camera`), and its operations are proved there.
- The `WorldState` wrappers of the physics queries (`src/sim/world.rs:277-329`). They forward the world's fields to `src/domain/physics.rs`, and the model calls the `Physics` functions directly with those fields.
- Physics.TerrainSupport: its own postcondition states only the bottom-row and open-hole cases. The full statement, that with no open hole it agrees with the rule engine's support, is `Physics.NoHolesSupportAgreesWithRules`.
- The score and the tick counter are unbounded `nat`s. The source's `u32` score and `u64` tick would overflow only after more than forty million gold pickups or centuries of play.
- Level.IsLetter: `char::is_alphabetic` is modelled for ASCII letters only, and the converter's `\d` for ASCII digits. Non-ASCII level names are not modelled.
- `char::is_whitespace` is modelled by the characters with the Unicode White_Space property, listed out (`Text.IsSpace`). No other Unicode tables are modelled.
- Ai.FindDirection: the search is modelled step by step, with the source's bound of 300 expansions. Its contract states that the step it returns is a legal first step, or the fallback when the search finds none. It does not state that this step starts a shortest path to the player.
- Save.ParseSave: models the corrected reader, which reads a tile row untrimmed; `parse_save` as written is `Save.ParseSaveTextAsWritten`, whose round trip is `SaveRoundTrip.SaveRoundTripAsWritten`.
- SaveRoundTrip.SaveRoundTrip: is stated for the corrected reader; for `parse_save` as written see `SaveRoundTrip.SaveRoundTripAsWritten` and `SaveRoundTrip.SaveRoundTripWhenRowsEndSolid`.
- SaveRoundTrip.ResumeFromSave: is stated for the corrected reader; `SaveRoundTrip.ResumeFromSaveAsWritten` states it for `parse_save` as written when no tile row ends in Empty.
- Level.ScanLevelLines: models the corrected name-line test; the reader as written agrees on every file without a '#' map row that the test as written takes for a name (`Level.ScanAsWrittenAgrees`).
- Level.ParseLevelFile: models the corrected name-line test; `Level.ParseAsWrittenAgrees` gives the agreement with `parse_level_file` as written.
- Level.LevelName: is stated for the corrected name-line test (`Level.ParseAsWrittenAgrees`).
- Level.LevelRows: is stated for the corrected name-line test (`Level.ParseAsWrittenAgrees`).
- LevelPack.ParsePackLevels: reads each section with the corrected name-line test.
- LevelPack.PackOfSections: reads each section with the corrected name-line test.
- ConvertText.TextReadsBack: is stated for the corrected name-line test; ConvertText.TextReadsBackAsWritten shows the reader as written gives the same level on the converter's text.
- ConvertText.WideTextReadsBack: is stated for the corrected name-line test; ConvertText.WideTextReadsBackAsWritten is the same statement for the reader as written.
- ConvertText.ScanHead: is stated over the corrected scan, as a step of ConvertText.TextReadsBack.
- ConvertText.ScanRows: is stated over the corrected scan, as a step of ConvertText.TextReadsBack.
- GuardMove.ChooseStep: the chase step is stated as `Ai.ChaseAnswer` (a legal step or the fallback), not as the one step the search picks; the same holds for GuardMove.CollectIntents, GuardMove.ResolveGuardMovement and Step.Step.
- GuardMove.CollectIntents: states the chase step as `Ai.ChaseAnswer`, as above.
- GuardMove.ResolveGuardMovement: states the chase step as `Ai.ChaseAnswer`, as above.
- Step.Step: states the chase step as `Ai.ChaseAnswer`, as above.

## Findings

| source | as written | input that shows it | evidently intended | confidence | as-written member | corrected member |
|---|---|---|---|---|---|---|
| src/sim/save.rs:466-467, 522-524 | `parse_save` applies `trim_end` to every line before matching keys, so a `tile_row=` line loses the spaces that stand for Empty tiles at the end of the row | a snapshot whose tile row is Brick, Empty is written as `tile_row=# ` and read back as the one-tile row Brick, so the restored map is narrower than its width | the comment on line 467 says leading spaces are kept for tile rows; every tile row should be read back whole, so that a saved game restores the map it saved | high; not executed | SaveRoundTrip.SavedRowLosesTrailingEmpty, SaveRoundTrip.TrailingEmptyIsCut, SaveRoundTrip.SaveRoundTripAsWritten (over `Save.AbsorbAsWritten`) | SaveRoundTrip.SaveRoundTrip (over `Save.Absorb`, which reads tile rows untrimmed) |
| src/sim/level.rs:380-387 | `is_name_line` accepts any `#` line whose remainder holds a letter, but the legend letters H, T, P and E are map characters | the map row `#  H  #` (brick, ladder, brick) in a file with no name line becomes the level's name "H  #" and is lost from the map | the comment above the function says a data line is `#` followed only by level tile characters; such a line should stay a map row | high; not executed | Level.LadderRowTakenForName, Level.LadderRowIsNameAsWritten (over `Level.IsNameLineAsWritten`; `Level.ParseAsWrittenAgrees` bounds where the two readers differ, and `Level.ParseAgreesAfterName` shows that a file opening with its name line, such as the converter's output, is unaffected) | Level.MapRowStaysRow, Level.LadderRowKept (over `Level.IsNameLine`) |
