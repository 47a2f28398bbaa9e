/** The running game: the world state with its two tile layers, the tile
    query and mutation API, the hole grid, and the camera viewport. */
module World {
  import opened Common
  import opened Tiles
  import opened Entity
  import Rules
  import Physics

  datatype Phase =
    Title | LevelSelect | PackSelect | LevelIntro | LevelReady | Playing
    | LevelOutro | LevelComplete | Dying | GameOver | GameComplete

  /** Tick constants of the simulation (all counts are in ticks). */
  datatype SpeedConfig = SpeedConfig(
    tickRateMs: nat, playerMoveRate: nat, guardMoveRate: nat, digDuration: nat,
    holeOpenTicks: nat, holeCloseTicks: nat, trapEscapeTicks: nat,
    guardRespawnTicks: nat, goldCarryTicks: nat)

  /** The speed settings `WorldState::new` starts from. */
  function DefaultSpeed(): (s: SpeedConfig)
    ensures s.tickRateMs == 75 && s.playerMoveRate == 2 && s.guardMoveRate == 5
    ensures s.digDuration == 5 && s.holeOpenTicks == 100 && s.holeCloseTicks == 20
    ensures s.trapEscapeTicks == 70 && s.guardRespawnTicks == 80 && s.goldCarryTicks == 150
  {
    SpeedConfig(75, 2, 5, 5, 100, 20, 70, 80, 150)
  }

  // ---------------------------------------------------------------------
  // Camera
  // ---------------------------------------------------------------------

  /** The offset that centres a map of `world` cells in a view of `view`
      cells when the map fits (negative or zero). */
  function CenteredOffset(view: nat, world: nat): (r: int)
    requires world <= view
    ensures -r >= 0 && -r + -r <= view - world && view - world <= -r + -r + 1
  {
    -((view - world) / 2)
  }

  /** Clamp an offset into [0, world - view]. */
  function ClampOffset(pos: int, view: nat, world: nat): (r: int)
    requires world > view
    ensures 0 <= r <= world - view
    ensures 0 <= pos <= world - view ==> r == pos
  {
    if pos < 0 then 0 else if pos > world - view then world - view else pos
  }

  /** One axis of `Camera::follow` for a non-empty view: centre a map that
      fits; otherwise scroll just enough to bring the target back inside the
      inner dead zone (a margin of a fifth of the view on each side), then
      clamp to the map. */
  function FollowAxis(pos: int, view: nat, world: nat, target: nat): int
    requires view > 0
  {
    if world <= view then CenteredOffset(view, world)
    else
      var margin := view / 5;
      var moved :=
        if target < pos + margin then target - margin
        else if target > pos + view - margin - 1 then target - view + margin + 1
        else pos;
      ClampOffset(moved, view, world)
  }

  /** Following centres a map that fits. On a larger map the view stays
      within the map, an on-map target ends up visible, and a target already
      inside the dead zone does not scroll the view. */
  lemma FollowAxisKeepsTargetInView(pos: int, view: nat, world: nat, target: nat)
    requires view > 0
    ensures world <= view ==> FollowAxis(pos, view, world, target) == CenteredOffset(view, world)
    ensures world > view ==> 0 <= FollowAxis(pos, view, world, target) <= world - view
    ensures world > view && target < world ==>
      FollowAxis(pos, view, world, target) <= target < FollowAxis(pos, view, world, target) + view
    ensures (world > view && 0 <= pos <= world - view
             && pos + view / 5 <= target <= pos + view - view / 5 - 1) ==>
      FollowAxis(pos, view, world, target) == pos
  {
  }

  /** One axis of `Camera::center_on` for a non-empty view: centre a map
      that fits; otherwise put the target in the middle of the view, clamped
      to the map. */
  function CenterAxis(view: nat, world: nat, target: nat): int
    requires view > 0
  {
    if world <= view then CenteredOffset(view, world)
    else ClampOffset(target - view / 2, view, world)
  }

  /** Centring centres a map that fits. On a larger map the view stays
      within the map, an on-map target is visible, and it sits exactly in the
      middle column whenever the clamp does not interfere. */
  lemma CenterAxisKeepsTargetInView(view: nat, world: nat, target: nat)
    requires view > 0
    ensures world <= view ==> CenterAxis(view, world, target) == CenteredOffset(view, world)
    ensures world > view ==> 0 <= CenterAxis(view, world, target) <= world - view
    ensures world > view && target < world ==>
      CenterAxis(view, world, target) <= target < CenterAxis(view, world, target) + view
    ensures world > view && view / 2 <= target <= world - view + view / 2 ==>
      CenterAxis(view, world, target) + view / 2 == target
  {
  }

  /** The body `Camera::follow` runs for each axis of a non-empty view. */
  method FollowOffset(pos: int, view: nat, world: nat, target: nat) returns (r: int)
    requires view > 0
    ensures r == FollowAxis(pos, view, world, target)
  {
    r := pos;
    if world <= view {
      r := -((view - world) / 2);
    } else {
      var margin := view / 5;
      var lowBound := r + margin;
      var highBound := r + view - margin - 1;
      if target < lowBound {
        r := target - margin;
      } else if target > highBound {
        r := target - view + margin + 1;
      }
      r := if r < 0 then 0 else r;
      r := if r > world - view then world - view else r;
    }
  }

  /** A viewport into the world: `(x, y)` is the world cell shown in the
      top-left corner, `viewW` x `viewH` cells are visible. */
  class Camera {
    var x: int
    var y: int
    var viewW: nat
    var viewH: nat

    /** `Camera::new`. */
    constructor ()
      ensures x == 0 && y == 0 && viewW == 0 && viewH == 0
    {
      x, y, viewW, viewH := 0, 0, 0, 0;
    }

    /** `Camera::follow`: dead-zone scrolling toward a target. Nothing moves
        while the view is empty. */
    method Follow(targetX: nat, targetY: nat, worldW: nat, worldH: nat)
      modifies this
      ensures viewW == old(viewW) && viewH == old(viewH)
      ensures viewW == 0 || viewH == 0 ==> x == old(x) && y == old(y)
      ensures viewW > 0 && viewH > 0 ==>
        x == FollowAxis(old(x), viewW, worldW, targetX) && y == FollowAxis(old(y), viewH, worldH, targetY)
    {
      if viewW == 0 || viewH == 0 {
        return;
      }
      x := FollowOffset(x, viewW, worldW, targetX);
      y := FollowOffset(y, viewH, worldH, targetY);
    }

    /** `Camera::center_on`: snap to the target without a dead zone. */
    method CenterOn(targetX: nat, targetY: nat, worldW: nat, worldH: nat)
      modifies this
      ensures viewW == old(viewW) && viewH == old(viewH)
      ensures viewW == 0 || viewH == 0 ==> x == old(x) && y == old(y)
      ensures viewW > 0 && viewH > 0 ==>
        x == CenterAxis(viewW, worldW, targetX) && y == CenterAxis(viewH, worldH, targetY)
    {
      if viewW == 0 || viewH == 0 {
        return;
      }
      if worldW <= viewW {
        x := -((viewW - worldW) / 2);
      } else {
        x := targetX - viewW / 2;
        x := if x < 0 then 0 else x;
        x := if x > worldW - viewW then worldW - viewW else x;
      }
      if worldH <= viewH {
        y := -((viewH - worldH) / 2);
      } else {
        y := targetY - viewH / 2;
        y := if y < 0 then 0 else y;
        y := if y > worldH - viewH then worldH - viewH else y;
      }
    }

    /** `Camera::world_to_view`: the view cell showing a world cell, if it
        is visible. */
    function WorldToView(wx: nat, wy: nat): (r: Option<(nat, nat)>)
      reads this
      ensures r.Some? <==> 0 <= wx - x < viewW && 0 <= wy - y < viewH
      ensures r.Some? ==> x + r.value.0 == wx && y + r.value.1 == wy
    {
      var vx := wx - x;
      var vy := wy - y;
      if 0 <= vx < viewW && 0 <= vy < viewH then Some((vx as nat, vy as nat)) else None
    }
  }

  /** After `CenterOn` a target on a map larger than the view is visible. */
  lemma CenteredTargetIsVisible(c: Camera, tx: nat, ty: nat, worldW: nat, worldH: nat)
    requires c.viewW > 0 && c.viewH > 0 && tx < worldW && ty < worldH
    requires worldW > c.viewW && worldH > c.viewH
    requires c.x == CenterAxis(c.viewW, worldW, tx) && c.y == CenterAxis(c.viewH, worldH, ty)
    ensures c.WorldToView(tx, ty).Some?
  {
    CenterAxisKeepsTargetInView(c.viewW, worldW, tx);
    CenterAxisKeepsTargetInView(c.viewH, worldH, ty);
  }

  // ---------------------------------------------------------------------
  // Gold accounting
  // ---------------------------------------------------------------------

  /** Number of Gold cells in one row. */
  function RowGold(row: seq<Tile>): nat
  {
    if |row| == 0 then 0
    else RowGold(row[..|row| - 1]) + (if row[|row| - 1] == Gold then 1 else 0)
  }

  /** Number of Gold cells on the map. */
  function GoldCount(rows: seq<seq<Tile>>): nat
  {
    if |rows| == 0 then 0
    else GoldCount(rows[..|rows| - 1]) + RowGold(rows[|rows| - 1])
  }

  function GoldIn(t: Tile): nat
  {
    if t == Gold then 1 else 0
  }

  /** Overwriting one cell changes the row's gold count by the difference. */
  lemma {:induction false} RowGoldUpdate(row: seq<Tile>, x: nat, v: Tile)
    requires x < |row|
    ensures RowGold(row[x := v]) + GoldIn(row[x]) == RowGold(row) + GoldIn(v)
    decreases |row|
  {
    var n := |row| - 1;
    if x == n {
      assert row[x := v][..n] == row[..n];
    } else {
      assert row[x := v][..n] == row[..n][x := v];
      RowGoldUpdate(row[..n], x, v);
    }
  }

  /** Overwriting one map cell changes the map's gold count by the
      difference. */
  lemma {:induction false} GoldCountSetCell(g: seq<seq<Tile>>, x: nat, y: nat, v: Tile)
    requires y < |g| && x < |g[y]|
    ensures GoldCount(SetCell(g, x, y, v)) + GoldIn(g[y][x]) == GoldCount(g) + GoldIn(v)
    decreases |g|
  {
    var n := |g| - 1;
    var g' := SetCell(g, x, y, v);
    if y == n {
      assert g'[..n] == g[..n];
      RowGoldUpdate(g[y], x, v);
    } else {
      assert g'[..n] == SetCell(g[..n], x, y, v);
      GoldCountSetCell(g[..n], x, y, v);
    }
  }

  /** A map with a Gold cell holds at least one gold. */
  lemma GoldCellIsCounted(g: seq<seq<Tile>>, x: nat, y: nat)
    requires y < |g| && x < |g[y]| && g[y][x] == Gold
    ensures GoldCount(g) >= 1
  {
    GoldCountSetCell(g, x, y, Empty);
  }

  /** Number of guards carrying gold. */
  function Carriers(guards: seq<Guard>): nat
  {
    if |guards| == 0 then 0
    else Carriers(guards[..|guards| - 1]) + (if guards[|guards| - 1].carryGold then 1 else 0)
  }

  function Carries(g: Guard): nat
  {
    if g.carryGold then 1 else 0
  }

  /** Replacing one guard changes the carrier count by the difference. */
  lemma {:induction false} CarriersUpdate(guards: seq<Guard>, i: nat, g: Guard)
    requires i < |guards|
    ensures Carriers(guards[i := g]) + Carries(guards[i]) == Carriers(guards) + Carries(g)
    decreases |guards|
  {
    var n := |guards| - 1;
    if i == n {
      assert guards[i := g][..n] == guards[..n];
    } else {
      assert guards[i := g][..n] == guards[..n][i := g];
      CarriersUpdate(guards[..n], i, g);
    }
  }

  // ---------------------------------------------------------------------
  // World state
  // ---------------------------------------------------------------------

  /** The simulation-relevant fields of a `WorldState`, as one value. */
  datatype WorldFields = WorldFields(
    baseTiles: seq<seq<Tile>>, tiles: seq<seq<Tile>>, width: nat, height: nat,
    player: Player, guards: seq<Guard>, holes: seq<Hole>, digs: seq<DigInProgress>,
    holeGrid: seq<seq<bool>>,
    goldRemaining: nat, goldTotal: nat, exitEnabled: bool,
    speed: SpeedConfig, phase: Phase, score: nat, lives: nat,
    currentLevel: nat, totalLevels: nat, tick: nat,
    playerSpawn: (nat, nat), exitColumns: seq<nat>, hiddenLadderPositions: seq<(nat, nat)>)

  /** The effective tiles of `f` as a `MapView`. */
  function MapOf(f: WorldFields): (m: Rules.MapView)
    ensures m.tiles == f.tiles && m.width == f.width && m.height == f.height
  {
    Rules.MapView(f.tiles, f.width, f.height)
  }

  /** A cell a dig or a hole may occupy: in bounds, below the top row, and
      Brick in the level as loaded. */
  ghost predicate DugCell(base: seq<seq<Tile>>, width: nat, height: nat, x: nat, y: nat)
    requires IsGrid(base, width, height)
  {
    1 <= y < height && x < width && base[y][x] == Brick
  }

  /** A guard stands on the map, spawns on the map, and is only ever dead
      on a map tall enough for the respawn row 1. */
  predicate GuardOnMap(width: nat, height: nat, g: Guard)
  {
    g.x < width && g.y < height && g.spawnX < width && g.spawnY < height
    && (g.state == Dead ==> 1 < height)
  }

  /** Both tile layers are grids, and runtime changes never create Brick:
      a Brick cell is Brick in the base layer. */
  ghost predicate LayersAgree(tiles: seq<seq<Tile>>, base: seq<seq<Tile>>, width: nat, height: nat)
  {
    IsGrid(tiles, width, height) && IsGrid(base, width, height)
    && forall y, x :: 0 <= y < height && 0 <= x < width && tiles[y][x] == Brick ==> base[y][x] == Brick
  }

  /** The gold on the map plus the gold guards carry is within `remaining`. */
  ghost predicate GoldBounded(tiles: seq<seq<Tile>>, guards: seq<Guard>, remaining: nat)
  {
    GoldCount(tiles) + Carriers(guards) <= remaining
  }

  /** Every hole and every dig sits on a dug cell. */
  ghost predicate DugCellsOk(base: seq<seq<Tile>>, width: nat, height: nat, holes: seq<Hole>, digs: seq<DigInProgress>)
    requires IsGrid(base, width, height)
  {
    (forall h :: h in holes ==> DugCell(base, width, height, h.x, h.y))
    && (forall d :: d in digs ==> DugCell(base, width, height, d.x, d.y))
  }

  ghost predicate GuardsOnMap(width: nat, height: nat, guards: seq<Guard>)
  {
    forall i :: 0 <= i < |guards| ==> GuardOnMap(width, height, guards[i])
  }

  /** The invariant a running level keeps:
      - both tile layers are `height` x `width` grids;
      - the gold still on the map plus the gold guards carry never exceeds
        `goldRemaining`, so collecting a gold never underflows it;
      - runtime changes never create Brick, so a Brick cell is Brick in the
        base layer;
      - digs and holes sit on base Brick below the top row;
      - guards and their spawn points are on the map. */
  ghost predicate Inv(f: WorldFields)
  {
    LayersAgree(f.tiles, f.baseTiles, f.width, f.height)
    && GoldBounded(f.tiles, f.guards, f.goldRemaining)
    && DugCellsOk(f.baseTiles, f.width, f.height, f.holes, f.digs)
    && GuardsOnMap(f.width, f.height, f.guards)
  }

  /** Writing a tile other than Brick and Gold keeps the invariant. */
  lemma SetPlainTileKeepsInv(f: WorldFields, x: nat, y: nat, t: Tile)
    requires Inv(f) && x < f.width && y < f.height && t != Brick && t != Gold
    ensures Inv(f.(tiles := SetCell(f.tiles, x, y, t)))
  {
    GoldCountSetCell(f.tiles, x, y, t);
  }

  /** Dropping the gold of guard `i` on an Empty cell keeps the invariant:
      the gold moves from the guard to the map. */
  lemma DropGoldKeepsInv(f: WorldFields, x: nat, y: nat, i: nat, g: Guard)
    requires Inv(f) && x < f.width && y < f.height && f.tiles[y][x] == Empty
    requires i < |f.guards| && f.guards[i].carryGold && !g.carryGold && GuardOnMap(f.width, f.height, g)
    ensures Inv(f.(tiles := SetCell(f.tiles, x, y, Gold), guards := f.guards[i := g]))
  {
    GoldCountSetCell(f.tiles, x, y, Gold);
    CarriersUpdate(f.guards, i, g);
  }

  /** A guard picking up the gold under it keeps the invariant. */
  lemma PickUpGoldKeepsInv(f: WorldFields, i: nat, g: Guard)
    requires Inv(f) && i < |f.guards| && !f.guards[i].carryGold && g.carryGold && GuardOnMap(f.width, f.height, g)
    requires var x, y := f.guards[i].x, f.guards[i].y; f.tiles[y][x] == Gold
    ensures var x, y := f.guards[i].x, f.guards[i].y;
      Inv(f.(tiles := SetCell(f.tiles, x, y, Empty), guards := f.guards[i := g]))
  {
    GoldCountSetCell(f.tiles, f.guards[i].x, f.guards[i].y, Empty);
    CarriersUpdate(f.guards, i, g);
  }

  /** Replacing a guard by one that is on the map and carries no more gold
      keeps the invariant. */
  lemma UpdateGuardKeepsInv(f: WorldFields, i: nat, g: Guard)
    requires Inv(f) && i < |f.guards| && GuardOnMap(f.width, f.height, g)
    requires g.carryGold ==> f.guards[i].carryGold
    ensures Inv(f.(guards := f.guards[i := g]))
  {
    CarriersUpdate(f.guards, i, g);
  }

  /** The complete state of a running game. `baseTiles` is the level as
      loaded and is never changed during play; `tiles` is the effective
      terrain, changed only through `SetTile`, `ClearTile` and
      `ResetTiles`. */
  class WorldState {
    var baseTiles: seq<seq<Tile>>
    var tiles: seq<seq<Tile>>
    var width: nat
    var height: nat
    var player: Player
    var guards: seq<Guard>
    var holes: seq<Hole>
    var digs: seq<DigInProgress>
    var holeGrid: seq<seq<bool>>   // holeGrid[y][x] <==> an active hole at (x, y)
    var goldRemaining: nat
    var goldTotal: nat
    var exitEnabled: bool
    var speed: SpeedConfig
    var phase: Phase
    var score: nat
    var lives: nat
    var currentLevel: nat
    var totalLevels: nat
    var tick: nat
    var playerSpawn: (nat, nat)
    var exitColumns: seq<nat>
    var hiddenLadderPositions: seq<(nat, nat)>

    /** All simulation fields, as one value. */
    function Fields(): (f: WorldFields)
      reads this
      ensures f.tiles == tiles && f.baseTiles == baseTiles && f.guards == guards && f.holes == holes
      ensures f.width == width && f.height == height && f.digs == digs && f.player == player
    {
      WorldFields(baseTiles, tiles, width, height, player, guards, holes, digs, holeGrid,
        goldRemaining, goldTotal, exitEnabled, speed, phase, score, lives,
        currentLevel, totalLevels, tick, playerSpawn, exitColumns, hiddenLadderPositions)
    }

    ghost predicate Valid()
      reads this
    {
      Inv(Fields())
    }

    /** The effective tiles as a `MapView`. */
    function Map(): (m: Rules.MapView)
      reads this
      ensures m == MapOf(Fields())
    {
      Rules.MapView(tiles, width, height)
    }

    /** `WorldState::new`: an empty world on the title screen with five
        lives and the default speeds. */
    constructor ()
      ensures Fields() == WorldFields([], [], 0, 0, NewPlayer(0, 0), [], [], [], [],
        0, 0, false, DefaultSpeed(), Title, 0, 5, 0, 0, 0, (0, 0), [], [])
      ensures Valid()
    {
      baseTiles, tiles, width, height := [], [], 0, 0;
      player, guards, holes, digs, holeGrid := NewPlayer(0, 0), [], [], [], [];
      goldRemaining, goldTotal, exitEnabled := 0, 0, false;
      speed, phase, score, lives := DefaultSpeed(), Title, 0, 5;
      currentLevel, totalLevels, tick := 0, 0, 0;
      playerSpawn, exitColumns, hiddenLadderPositions := (0, 0), [], [];
    }

    /** `WorldState::terrain_at`: the effective tile, Concrete off the map. */
    function TerrainAt(x: nat, y: nat): (t: Tile)
      reads this
      requires IsGrid(tiles, width, height)
      ensures x >= width || y >= height ==> t == Concrete
      ensures x < width && y < height ==> t == tiles[y][x]
      ensures t == Rules.TileAt(Map(), x, y)
    {
      if x < width && y < height then tiles[y][x] else Concrete
    }

    /** `WorldState::set_tile`: change one effective cell; a no-op off the
        map. */
    method SetTile(x: nat, y: nat, t: Tile)
      requires IsGrid(tiles, width, height)
      modifies this
      ensures x < old(width) && y < old(height) ==>
        Fields() == old(Fields()).(tiles := SetCell(old(tiles), x, y, t))
      ensures x >= old(width) || y >= old(height) ==> Fields() == old(Fields())
    {
      if x < width && y < height {
        tiles := SetCell(tiles, x, y, t);
      }
    }

    /** `WorldState::clear_tile`: revert one cell to the base layer; a no-op
        off the map. */
    method ClearTile(x: nat, y: nat)
      requires IsGrid(tiles, width, height) && IsGrid(baseTiles, width, height)
      modifies this
      ensures x < old(width) && y < old(height) ==>
        Fields() == old(Fields()).(tiles := SetCell(old(tiles), x, y, old(baseTiles)[y][x]))
      ensures x >= old(width) || y >= old(height) ==> Fields() == old(Fields())
    {
      if x < width && y < height {
        tiles := SetCell(tiles, x, y, baseTiles[y][x]);
      }
    }

    /** `WorldState::reset_tiles`: the effective layer becomes the base
        layer again. */
    method ResetTiles()
      modifies this
      ensures Fields() == old(Fields()).(tiles := baseTiles)
    {
      tiles := baseTiles;
    }

    /** `WorldState::rebuild_hole_grid`: recompute the hole grid from the
        current holes. */
    method RebuildHoleGrid()
      modifies this
      ensures Physics.IsHoleGridOf(holeGrid, holes, width, height)
      ensures Fields() == old(Fields()).(holeGrid := holeGrid)
    {
      holeGrid := Physics.BuildHoleGrid(holes, width, height);
    }
  }

  /** Reverting a dug cell to the base layer keeps the invariant: the base
      there is Brick, which holds no gold. */
  lemma ClearDugCellKeepsInv(f: WorldFields, x: nat, y: nat)
    requires Inv(f) && DugCell(f.baseTiles, f.width, f.height, x, y)
    ensures Inv(f.(tiles := SetCell(f.tiles, x, y, f.baseTiles[y][x])))
  {
    GoldCountSetCell(f.tiles, x, y, Brick);
  }
}
