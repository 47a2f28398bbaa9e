/** Shared vocabulary of the tick passes: the events a pass reports, the
    helpers several passes use (`can_drop_gold_at`, `guard_enter_hole`,
    `player_die`), and the lemmas that carry the world invariant across a
    change of guards or tiles. */
module StepBase {
  import opened Common
  import opened Tiles
  import opened Entity
  import opened World

  /** What a pass reports to the presentation layer. */
  datatype GameEvent =
    | GoldPicked(x: nat, y: nat)
    | HoleCreated(x: nat, y: nat)
    | HoleFilled(x: nat, y: nat)
    | GuardTrapped(id: nat, x: nat, y: nat)
    | GuardKilled(id: nat, x: nat, y: nat)
    | GuardRespawned(id: nat)
    | GuardDroppedGold(x: nat, y: nat)
    | PlayerKilled
    | PlayerFallStart
    | ExitEnabled
    | StageCleared
    | AllGoldCollected
    | TrapCollapsed(x: nat, y: nat)

  /** A guard that is neither dead nor trapped. */
  predicate IsActive(g: Guard)
  {
    g.state != Dead && g.state != InHole
  }

  /** The tile layer is a `height` x `width` grid: what every pass needs
      before it can look at a cell. */
  ghost predicate Shaped(f: WorldFields)
  {
    IsGrid(f.tiles, f.width, f.height)
  }

  /** `r` differs from `f` at most in its tiles, guards, holes, digs, hole
      grid, player, score and phase, and keeps the map and guard count. */
  ghost predicate SameLevel(f: WorldFields, r: WorldFields)
  {
    r.width == f.width && r.height == f.height && r.baseTiles == f.baseTiles
    && |r.guards| == |f.guards| && r.speed == f.speed
    && r.goldRemaining == f.goldRemaining && r.goldTotal == f.goldTotal
  }

  /** `WorldState::set_tile` on a tile layer: an in-bounds cell is
      overwritten, a write outside the map is ignored. */
  function PutTile(tiles: seq<seq<Tile>>, width: nat, height: nat, x: nat, y: nat, t: Tile): (r: seq<seq<Tile>>)
    requires IsGrid(tiles, width, height)
    ensures IsGrid(r, width, height)
    ensures x < width && y < height ==> r == SetCell(tiles, x, y, t)
    ensures x >= width || y >= height ==> r == tiles
  {
    if x < width && y < height then SetCell(tiles, x, y, t) else tiles
  }

  /** `player_in_closing_hole`: the living player stands in a hole that is
      refilling. */
  predicate PlayerInClosingHole(f: WorldFields)
  {
    f.player.alive
    && exists i :: 0 <= i < |f.holes| && f.holes[i].x == f.player.x && f.holes[i].y == f.player.y
                   && f.holes[i].IsClosing()
  }

  /** `can_drop_gold_at`: gold may rest only on an in-bounds Empty cell with
      a solid tile (or the map bottom) underneath. */
  function CanDropGoldAt(f: WorldFields, x: nat, y: nat): (b: bool)
    requires Shaped(f)
    ensures b <==> x < f.width && y < f.height && f.tiles[y][x] == Empty
                   && (y + 1 >= f.height || f.tiles[y + 1][x] in {Brick, Concrete, TrapBrick})
  {
    if x >= f.width || y >= f.height then false
    else if Rules.TileAt(MapOf(f), x, y) != Empty then false
    else if y + 1 >= f.height then true
    else IsSolid(Rules.TileAt(MapOf(f), x, y + 1))
  }

  /** The facing after a horizontal step of `dx`: left for a negative step,
      right for a positive one, unchanged for a vertical one. */
  function Turned(facing: Facing, dx: int): Facing
  {
    if dx < 0 then Left else if dx > 0 then Right else facing
  }

  /** The world with guard `i` replaced by `g`. */
  function WithGuard(f: WorldFields, i: nat, g: Guard): WorldFields
    requires i < |f.guards|
  {
    f.(guards := f.guards[i := g])
  }

  /** Some guard other than `i`, and not dead, stands at (x, y). */
  predicate OtherGuardAt(guards: seq<Guard>, i: nat, x: nat, y: nat)
  {
    exists j :: 0 <= j < |guards| && j != i && guards[j].x == x && guards[j].y == y && guards[j].state != Dead
  }

  // ---------------------------------------------------------------------
  // The invariant across guard and tile changes
  // ---------------------------------------------------------------------

  /** A guard that holds gold only if the guard it replaces did. */
  predicate NoNewGold(old_: Guard, new_: Guard)
  {
    new_.carryGold ==> old_.carryGold
  }

  /** Guards that never gain gold are never more carriers. */
  lemma {:induction false} CarriersMonotone(gs: seq<Guard>, hs: seq<Guard>)
    requires |gs| == |hs|
    requires forall i :: 0 <= i < |gs| ==> NoNewGold(gs[i], hs[i])
    ensures Carriers(hs) <= Carriers(gs)
    decreases |gs|
  {
    if |gs| > 0 {
      var n := |gs| - 1;
      CarriersMonotone(gs[..n], hs[..n]);
    }
  }

  /** Replacing all guards by guards on the map that gain no gold keeps the
      invariant. */
  lemma GuardsReplacedKeepsInv(f: WorldFields, gs: seq<Guard>)
    requires Inv(f) && |gs| == |f.guards|
    requires GuardsOnMap(f.width, f.height, gs)
    requires forall i :: 0 <= i < |gs| ==> NoNewGold(f.guards[i], gs[i])
    ensures Inv(f.(guards := gs))
  {
    CarriersMonotone(f.guards, gs);
  }

  // ---------------------------------------------------------------------
  // guard_enter_hole
  // ---------------------------------------------------------------------

  /** The world after `guard_enter_hole`: guard `idx` is trapped with a fresh
      escape timer; if it carries gold and a drop row is given where gold may
      rest, the gold is placed at (holeX, dropY), otherwise the guard keeps
      it. */
  function EnteredHole(f: WorldFields, idx: nat, holeX: nat, dropY: Option<nat>): (r: WorldFields)
    requires Shaped(f) && idx < |f.guards|
    ensures Shaped(r) && SameLevel(f, r)
    ensures r == f.(tiles := r.tiles, guards := r.guards)
    ensures r.guards[idx].state == InHole && r.guards[idx].stuckTimer == f.speed.trapEscapeTicks
    ensures forall j :: 0 <= j < |f.guards| && j != idx ==> r.guards[j] == f.guards[j]
  {
    var g := f.guards[idx].(state := InHole, stuckTimer := f.speed.trapEscapeTicks);
    if g.carryGold && dropY.Some? && CanDropGoldAt(f, holeX, dropY.value) then
      f.(tiles := SetCell(f.tiles, holeX, dropY.value, Gold),
         guards := f.guards[idx := g.(carryGold := false, carryGoldTimer := 0)])
    else
      f.(guards := f.guards[idx := g])
  }

  /** Entering a hole moves no guard, creates no gold, and loses none: the
      gold either stays with the guard or lands on the map. */
  lemma EnteredHoleConservesGold(f: WorldFields, idx: nat, holeX: nat, dropY: Option<nat>)
    requires Shaped(f) && idx < |f.guards|
    ensures var r := EnteredHole(f, idx, holeX, dropY);
      GoldCount(r.tiles) + Carriers(r.guards) == GoldCount(f.tiles) + Carriers(f.guards)
      && r.guards[idx].x == f.guards[idx].x && r.guards[idx].y == f.guards[idx].y
  {
    var g := f.guards[idx].(state := InHole, stuckTimer := f.speed.trapEscapeTicks);
    if g.carryGold && dropY.Some? && CanDropGoldAt(f, holeX, dropY.value) {
      GoldCountSetCell(f.tiles, holeX, dropY.value, Gold);
      CarriersUpdate(f.guards, idx, g.(carryGold := false, carryGoldTimer := 0));
    } else {
      CarriersUpdate(f.guards, idx, g);
    }
  }

  lemma EnteredHoleKeepsInv(f: WorldFields, idx: nat, holeX: nat, dropY: Option<nat>)
    requires Inv(f) && idx < |f.guards|
    ensures Inv(EnteredHole(f, idx, holeX, dropY))
  {
    var g := f.guards[idx].(state := InHole, stuckTimer := f.speed.trapEscapeTicks);
    if g.carryGold && dropY.Some? && CanDropGoldAt(f, holeX, dropY.value) {
      DropGoldKeepsInv(f, holeX, dropY.value, idx, g.(carryGold := false, carryGoldTimer := 0));
    } else {
      UpdateGuardKeepsInv(f, idx, g);
    }
  }

  /** `guard_enter_hole`, in place. */
  method GuardEnterHole(w: WorldState, idx: nat, holeX: nat, dropY: Option<nat>)
    requires Shaped(w.Fields()) && idx < |w.guards|
    modifies w
    ensures w.Fields() == EnteredHole(old(w.Fields()), idx, holeX, dropY)
  {
    w.guards := w.guards[idx := w.guards[idx].(state := InHole, stuckTimer := w.speed.trapEscapeTicks)];
    if w.guards[idx].carryGold && dropY.Some? {
      var dy := dropY.value;
      if CanDropGoldAt(w.Fields(), holeX, dy) {
        w.SetTile(holeX, dy, Gold);
        w.guards := w.guards[idx := w.guards[idx].(carryGold := false, carryGoldTimer := 0)];
      }
    }
  }

  // ---------------------------------------------------------------------
  // player_die
  // ---------------------------------------------------------------------

  /** The world after `player_die`: the player is dead and the level enters
      the Dying phase; nothing else changes. */
  function Died(f: WorldFields): (r: WorldFields)
    ensures !r.player.alive && r.phase == Dying
    ensures r.player == f.player.(alive := false)
    ensures r == f.(player := r.player, phase := r.phase)
  {
    f.(player := f.player.(alive := false), phase := Dying)
  }

  lemma DiedKeepsInv(f: WorldFields)
    requires Inv(f)
    ensures Inv(Died(f))
  {
  }

  /** `player_die`, in place. */
  method PlayerDie(w: WorldState)
    modifies w
    ensures w.Fields() == Died(old(w.Fields()))
  {
    w.player := w.player.(alive := false);
    w.phase := Dying;
  }
}
