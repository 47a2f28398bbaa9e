/** The timer pass of a tick (`resolve_timers` and `try_escape`): trapped
    guards count down and climb out, dead guards count up and respawn, and
    holes count down, refill, and bury whatever is still inside. */
module Timers {
  import opened Common
  import opened Tiles
  import opened Entity
  import opened World
  import opened StepBase
  import Rules
  import Physics
  import Pickup

  /** Both tile layers are `height` x `width` grids, so a cell of either
      can be read; every pass keeps this, since none changes the map size
      or the base layer. */
  ghost predicate Layered(f: WorldFields)
  {
    IsGrid(f.tiles, f.width, f.height) && IsGrid(f.baseTiles, f.width, f.height)
  }

  // ---------------------------------------------------------------------
  // try_escape
  // ---------------------------------------------------------------------

  /** Guard `i` may climb out diagonally to (x + dx, y - 1): the cell is on
      the map, passable, supported, and no other living guard is there. */
  predicate CanEscapeTo(f: WorldFields, i: nat, dx: int)
    requires Shaped(f) && i < |f.guards|
  {
    var g := f.guards[i];
    var ex := g.x + dx;
    g.y > 0 && 0 <= ex < f.width
    && Physics.TerrainAt(MapOf(f), f.holeGrid, ex, g.y - 1).passable
    && Physics.HasSupport(MapOf(f), f.holeGrid, f.guards, ex, g.y - 1)
    && !OtherGuardAt(f.guards, i, ex, g.y - 1)
  }

  /** The side toward the player: right when the player is further right,
      left otherwise (also when it is in the same column). */
  function TowardPlayer(f: WorldFields, i: nat): (dx: int)
    requires i < |f.guards|
    ensures dx == 1 <==> f.player.x > f.guards[i].x
    ensures dx == 1 || dx == -1
  {
    if f.player.x > f.guards[i].x then 1 else -1
  }

  /** The side `try_escape` takes: toward the player if it can, otherwise
      away from it, otherwise none. */
  function EscapeChoice(f: WorldFields, i: nat): (r: Option<int>)
    requires Shaped(f) && i < |f.guards|
    ensures r.Some? ==> CanEscapeTo(f, i, r.value) && (r.value == 1 || r.value == -1)
    ensures r.Some? && r.value != TowardPlayer(f, i) ==> !CanEscapeTo(f, i, TowardPlayer(f, i))
    ensures r.None? <==> !CanEscapeTo(f, i, 1) && !CanEscapeTo(f, i, -1)
  {
    var first := TowardPlayer(f, i);
    if CanEscapeTo(f, i, first) then Some(first)
    else if CanEscapeTo(f, i, -first) then Some(-first)
    else None
  }

  /** Guard `i` leaves the gold it carries at (x, y) when gold may rest
      there, and keeps it otherwise. */
  function LeftGold(f: WorldFields, i: nat, x: nat, y: nat): (r: WorldFields)
    requires Shaped(f) && i < |f.guards|
    ensures Shaped(r) && SameLevel(f, r) && r == f.(tiles := r.tiles, guards := r.guards)
    ensures forall j :: 0 <= j < |f.guards| && j != i ==> r.guards[j] == f.guards[j]
    ensures var g := f.guards[i]; var dropped := g.carryGold && CanDropGoldAt(f, x, y);
      r.guards[i] == (if dropped then g.(carryGold := false, carryGoldTimer := 0) else g)
      && r.tiles == (if dropped then SetCell(f.tiles, x, y, Gold) else f.tiles)
  {
    var g := f.guards[i];
    if g.carryGold && CanDropGoldAt(f, x, y) then
      f.(tiles := SetCell(f.tiles, x, y, Gold), guards := f.guards[i := g.(carryGold := false, carryGoldTimer := 0)])
    else f
  }

  /** Leaving gold moves it from the guard to the map: gold is conserved and
      the invariant kept. */
  lemma LeftGoldKeepsInv(f: WorldFields, i: nat, x: nat, y: nat)
    requires Inv(f) && i < |f.guards|
    ensures Inv(LeftGold(f, i, x, y))
    ensures Pickup.GoldInPlay(LeftGold(f, i, x, y)) == Pickup.GoldInPlay(f)
  {
    var g := f.guards[i];
    if g.carryGold && CanDropGoldAt(f, x, y) {
      var h := g.(carryGold := false, carryGoldTimer := 0);
      DropGoldKeepsInv(f, x, y, i, h);
      GoldCountSetCell(f.tiles, x, y, Gold);
      CarriersUpdate(f.guards, i, h);
    }
  }

  /** Guard `i` after climbing out to the side `dx`, before its gold and its
      state are dealt with: at (x + dx, y - 1), standing, facing the way it
      moved. */
  function ClimbedGuard(g: Guard, dx: int): (h: Guard)
    requires g.y > 0 && 0 <= g.x + dx
    ensures h.x == g.x + dx && h.y + 1 == g.y && h.facing == Turned(g.facing, dx) && h.state == OnGround
    ensures h.carryGold == g.carryGold
  {
    g.(x := g.x + dx, y := g.y - 1, state := OnGround, facing := Turned(g.facing, dx))
  }

  /** The world after guard `i` climbs out to the side `dx`, before its
      state is resolved: carried gold is left on the cell above the hole
      when gold may rest there. */
  function Climbed(f: WorldFields, i: nat, dx: int): (r: WorldFields)
    requires Shaped(f) && i < |f.guards| && CanEscapeTo(f, i, dx)
    ensures Shaped(r) && SameLevel(f, r) && r == f.(tiles := r.tiles, guards := r.guards)
    ensures forall j :: 0 <= j < |f.guards| && j != i ==> r.guards[j] == f.guards[j]
  {
    var g := f.guards[i];
    LeftGold(WithGuard(f, i, ClimbedGuard(g, dx)), i, g.x, g.y - 1)
  }

  /** Guard `i` takes the state the physics layer resolves at its cell. */
  function Settled(f: WorldFields, i: nat): (r: WorldFields)
    requires Shaped(f) && i < |f.guards|
    ensures r == f.(guards := r.guards) && |r.guards| == |f.guards|
    ensures forall j :: 0 <= j < |f.guards| && j != i ==> r.guards[j] == f.guards[j]
    ensures var g := f.guards[i];
      r.guards[i] == g.(state := Physics.ResolveState(MapOf(f), f.holeGrid, f.guards, g.x, g.y, g.state))
  {
    var g := f.guards[i];
    WithGuard(f, i, g.(state := Physics.ResolveState(MapOf(f), f.holeGrid, f.guards, g.x, g.y, g.state)))
  }

  /** The world after guard `i` climbs out to the side `dx` and settles. */
  function EscapedTo(f: WorldFields, i: nat, dx: int): (r: WorldFields)
    requires Shaped(f) && i < |f.guards| && CanEscapeTo(f, i, dx)
    ensures Shaped(r) && SameLevel(f, r) && r == f.(tiles := r.tiles, guards := r.guards)
    ensures forall j :: 0 <= j < |f.guards| && j != i ==> r.guards[j] == f.guards[j]
  {
    Settled(Climbed(f, i, dx), i)
  }

  /** The guard that climbs out ends up one row up and one column to the
      side it chose, facing that way; the gold it carried is on the cell
      above the hole when gold may rest there, and nothing else on the map
      changes. */
  lemma EscapedToMoves(f: WorldFields, i: nat, dx: int)
    requires Shaped(f) && i < |f.guards| && CanEscapeTo(f, i, dx)
    ensures var r := EscapedTo(f, i, dx); var g := f.guards[i]; var h := r.guards[i];
      var dropped := g.carryGold && CanDropGoldAt(f, g.x, g.y - 1);
      h.x == g.x + dx && h.y + 1 == g.y && h.facing == Turned(g.facing, dx)
      && h.carryGold == (g.carryGold && !dropped)
      && r.tiles == (if dropped then SetCell(f.tiles, g.x, g.y - 1, Gold) else f.tiles)
  {
    ClimbedMoves(f, i, dx);
    var c := Climbed(f, i, dx);
    assert EscapedTo(f, i, dx) == Settled(c, i);
  }

  /** The move half of `EscapedToMoves`, before the state is resolved. */
  lemma ClimbedMoves(f: WorldFields, i: nat, dx: int)
    requires Shaped(f) && i < |f.guards| && CanEscapeTo(f, i, dx)
    ensures var r := Climbed(f, i, dx); var g := f.guards[i]; var h := r.guards[i];
      var dropped := g.carryGold && CanDropGoldAt(f, g.x, g.y - 1);
      h.x == g.x + dx && h.y + 1 == g.y && h.facing == Turned(g.facing, dx)
      && h.carryGold == (g.carryGold && !dropped)
      && r.tiles == (if dropped then SetCell(f.tiles, g.x, g.y - 1, Gold) else f.tiles)
  {
    EscapeCellOnMap(f, i, dx);
  }

  /** Once out, the guard is in a state that is not sticky, falling exactly
      when nothing holds it up where it now stands. */
  lemma EscapedToSettles(f: WorldFields, i: nat, dx: int)
    requires Shaped(f) && i < |f.guards| && CanEscapeTo(f, i, dx)
    ensures var r := EscapedTo(f, i, dx); var h := r.guards[i];
      !Rules.IsSticky(h.state)
      && (h.state == Falling <==> !Physics.HasSupport(MapOf(r), r.holeGrid, r.guards, h.x, h.y))
  {
    EscapeCellOnMap(f, i, dx);
    var c := Climbed(f, i, dx);
    var h := c.guards[i];
    assert h.state == OnGround;
    var r := EscapedTo(f, i, dx);
    assert r == c.(guards := c.guards[i := h.(state := r.guards[i].state)]);
    if Physics.HasTrappedGuard(c.guards, h.x, h.y + 1) {
      var j :| 0 <= j < |c.guards| && c.guards[j].x == h.x && c.guards[j].y == h.y + 1 && c.guards[j].state == InHole;
      assert r.guards[j] == c.guards[j];
    }
    if Physics.HasTrappedGuard(r.guards, h.x, h.y + 1) {
      var j :| 0 <= j < |r.guards| && r.guards[j].x == h.x && r.guards[j].y == h.y + 1 && r.guards[j].state == InHole;
      assert r.guards[j] == c.guards[j];
    }
  }

  /** `try_escape` on the world: the side `EscapeChoice` picks, or no change
      when neither side is open. */
  function Escaped(f: WorldFields, i: nat): (r: WorldFields)
    requires Shaped(f) && i < |f.guards|
    ensures Shaped(r) && SameLevel(f, r)
    ensures EscapeChoice(f, i).None? ==> r == f
  {
    match EscapeChoice(f, i)
    case None => f
    case Some(dx) => EscapedTo(f, i, dx)
  }

  /** A guard that climbs out always lands on its feet: the support that
      allowed the escape is still there once it has moved, since the cell
      it left is beside the cell under it, not that cell itself. */
  lemma EscapeLandsStanding(f: WorldFields, i: nat)
    requires Shaped(f) && i < |f.guards| && EscapeChoice(f, i).Some?
    ensures var r := Escaped(f, i); var g := f.guards[i];
      r.guards[i].y + 1 == g.y && (r.guards[i].x + 1 == g.x || r.guards[i].x == g.x + 1)
      && r.guards[i].state != Falling && r.guards[i].state != InHole && r.guards[i].state != Dead
  {
    var dx := EscapeChoice(f, i).value;
    assert Escaped(f, i) == EscapedTo(f, i, dx);
    EscapedToLandsStanding(f, i, dx);
  }

  /** `EscapeLandsStanding` for either side the guard may take. */
  lemma EscapedToLandsStanding(f: WorldFields, i: nat, dx: int)
    requires Shaped(f) && i < |f.guards| && CanEscapeTo(f, i, dx) && (dx == 1 || dx == -1)
    ensures var r := EscapedTo(f, i, dx); var g := f.guards[i];
      r.guards[i].y + 1 == g.y && (r.guards[i].x + 1 == g.x || r.guards[i].x == g.x + 1)
      && r.guards[i].state != Falling && r.guards[i].state != InHole && r.guards[i].state != Dead
  {
    var c := Climbed(f, i, dx);
    ClimbedKeepsSupport(f, i, dx);
    ClimbedGuardAt(f, i, dx);
    SettledOnSupport(c, i);
    assert EscapedTo(f, i, dx) == Settled(c, i);
  }

  /** Where the climbing guard is before it settles. */
  lemma ClimbedGuardAt(f: WorldFields, i: nat, dx: int)
    requires Shaped(f) && i < |f.guards| && CanEscapeTo(f, i, dx)
    ensures var h := Climbed(f, i, dx).guards[i]; var g := f.guards[i];
      h.x == g.x + dx && h.y + 1 == g.y && h.state == OnGround
  {
  }

  /** A standing guard with support settles in place, neither falling nor
      stuck. */
  lemma SettledOnSupport(c: WorldFields, i: nat)
    requires Shaped(c) && i < |c.guards| && c.guards[i].state == OnGround
    requires Physics.HasSupport(MapOf(c), c.holeGrid, c.guards, c.guards[i].x, c.guards[i].y)
    ensures var h := Settled(c, i).guards[i];
      h.x == c.guards[i].x && h.y == c.guards[i].y && !Rules.IsSticky(h.state) && h.state != Falling
  {
  }

  /** The support under the escape cell survives the climb. */
  lemma ClimbedKeepsSupport(f: WorldFields, i: nat, dx: int)
    requires Shaped(f) && i < |f.guards| && CanEscapeTo(f, i, dx) && dx != 0
    ensures var c := Climbed(f, i, dx); var g := f.guards[i];
      Physics.HasSupport(MapOf(c), c.holeGrid, c.guards, g.x + dx, g.y - 1)
  {
    var c := Climbed(f, i, dx);
    var g := f.guards[i];
    var ex: nat := g.x + dx;
    var ey: nat := g.y - 1;
    assert Physics.TerrainSupport(MapOf(c), c.holeGrid, ex, ey) == Physics.TerrainSupport(MapOf(f), f.holeGrid, ex, ey);
    if !Physics.TerrainSupport(MapOf(f), f.holeGrid, ex, ey) {
      var below: nat := ey + 1;
      var j :| 0 <= j < |f.guards| && f.guards[j].x == ex && f.guards[j].y == below && f.guards[j].state == InHole;
      assert c.guards[j] == f.guards[j];
    }
  }

  /** Climbing out creates and loses no gold, and keeps the invariant. */
  lemma ClimbedKeepsInv(f: WorldFields, i: nat, dx: int)
    requires Inv(f) && i < |f.guards| && CanEscapeTo(f, i, dx)
    ensures Inv(Climbed(f, i, dx))
    ensures Pickup.GoldInPlay(Climbed(f, i, dx)) == Pickup.GoldInPlay(f)
  {
    var g := f.guards[i];
    EscapeCellOnMap(f, i, dx);
    var c := WithGuard(f, i, ClimbedGuard(g, dx));
    StepUpKeepsInv(f, i, dx);
    LeftGoldKeepsInv(c, i, g.x, g.y - 1);
    assert Climbed(f, i, dx) == LeftGold(c, i, g.x, g.y - 1);
  }

  /** The move to the escape cell keeps the guard on the map and its gold
      in its hands. */
  lemma StepUpKeepsInv(f: WorldFields, i: nat, dx: int)
    requires Inv(f) && i < |f.guards| && f.guards[i].y > 0 && 0 <= f.guards[i].x + dx < f.width
    ensures var c := WithGuard(f, i, ClimbedGuard(f.guards[i], dx));
      Inv(c) && Pickup.GoldInPlay(c) == Pickup.GoldInPlay(f)
  {
    var h := ClimbedGuard(f.guards[i], dx);
    UpdateGuardKeepsInv(f, i, h);
    CarriersUpdate(f.guards, i, h);
  }

  lemma EscapedKeepsInv(f: WorldFields, i: nat)
    requires Inv(f) && i < |f.guards|
    ensures Inv(Escaped(f, i))
    ensures Pickup.GoldInPlay(Escaped(f, i)) == Pickup.GoldInPlay(f)
  {
    if EscapeChoice(f, i).Some? {
      var c := Climbed(f, i, EscapeChoice(f, i).value);
      ClimbedKeepsInv(f, i, EscapeChoice(f, i).value);
      var g := c.guards[i];
      var h := g.(state := Physics.ResolveState(MapOf(c), c.holeGrid, c.guards, g.x, g.y, g.state));
      UpdateGuardKeepsInv(c, i, h);
      CarriersUpdate(c.guards, i, h);
    }
  }

  /** `try_escape`, in place. */
  method TryEscape(w: WorldState, i: nat)
    requires Shaped(w.Fields()) && i < |w.guards|
    modifies w
    ensures w.Fields() == Escaped(old(w.Fields()), i)
  {
    ghost var f := w.Fields();
    var gx, gy, px := w.guards[i].x, w.guards[i].y, w.player.x;
    var dirs: seq<int> := if px > gx then [1, -1] else [-1, 1];
    assert dirs[0] == TowardPlayer(w.Fields(), i) && dirs[1] == -dirs[0];
    for k := 0 to 2
      invariant w.Fields() == f
      invariant forall m :: 0 <= m < k ==> !CanEscapeTo(f, i, dirs[m])
    {
      var dx := dirs[k];
      if gy == 0 {
        continue;
      }
      var ey := gy - 1;
      var ex := gx + dx;
      if ex < 0 || ex >= w.width {
        continue;
      }
      if !Physics.TerrainAt(w.Map(), w.holeGrid, ex, ey).passable {
        continue;
      }
      if !Physics.HasSupport(w.Map(), w.holeGrid, w.guards, ex, ey) {
        continue;
      }
      var blocked := exists j :: 0 <= j < |w.guards| && j != i && w.guards[j].state != Dead
                                 && w.guards[j].x == ex && w.guards[j].y == ey;
      if blocked {
        continue;
      }
      assert CanEscapeTo(f, i, dx);
      ClimbOut(w, i, dx);
      return;
    }
  }

  /** The cell a guard may escape to lies on the map, one row up. */
  lemma EscapeCellOnMap(f: WorldFields, i: nat, dx: int)
    requires Shaped(f) && i < |f.guards| && CanEscapeTo(f, i, dx)
    ensures var g := f.guards[i]; g.y > 0 && 0 <= g.x + dx < f.width
  {
  }

  /** The move half of `try_escape`, once a side has been accepted. */
  method ClimbOut(w: WorldState, i: nat, dx: int)
    requires Shaped(w.Fields()) && i < |w.guards| && CanEscapeTo(w.Fields(), i, dx)
    modifies w
    ensures w.Fields() == EscapedTo(old(w.Fields()), i, dx)
  {
    ghost var f := w.Fields();
    var g := w.guards[i];
    EscapeCellOnMap(f, i, dx);
    StepUp(w, i, dx);
    ghost var f1 := w.Fields();
    LeaveGold(w, i, g.x, g.y - 1);
    ghost var f2 := w.Fields();
    assert f2 == Climbed(f, i, dx);
    SettleGuard(w, i);
  }

  /** The guard moves to the escape cell, in place. */
  method StepUp(w: WorldState, i: nat, dx: int)
    requires Shaped(w.Fields()) && i < |w.guards| && w.guards[i].y > 0 && 0 <= w.guards[i].x + dx
    modifies w
    ensures w.Fields() == WithGuard(old(w.Fields()), i, ClimbedGuard(old(w.guards[i]), dx))
  {
    w.guards := w.guards[i := ClimbedGuard(w.guards[i], dx)];
  }

  /** The gold drop of `try_escape`, in place. */
  method LeaveGold(w: WorldState, i: nat, x: nat, y: nat)
    requires Shaped(w.Fields()) && i < |w.guards|
    modifies w
    ensures w.Fields() == LeftGold(old(w.Fields()), i, x, y)
  {
    if w.guards[i].carryGold {
      var canDrop := CanDropGoldAt(w.Fields(), x, y);
      if canDrop {
        w.SetTile(x, y, Gold);
        w.guards := w.guards[i := w.guards[i].(carryGold := false, carryGoldTimer := 0)];
      }
    }
  }

  /** The closing `resolve_state` of `try_escape`, in place. */
  method SettleGuard(w: WorldState, i: nat)
    requires Shaped(w.Fields()) && i < |w.guards|
    modifies w
    ensures w.Fields() == Settled(old(w.Fields()), i)
  {
    var g := w.guards[i];
    var s := Physics.ResolveState(w.Map(), w.holeGrid, w.guards, g.x, g.y, g.state);
    w.guards := w.guards[i := g.(state := s)];
  }

  // ---------------------------------------------------------------------
  // Guard timers
  // ---------------------------------------------------------------------

  /** The escape timer of a trapped guard: it counts down to 0, and at 0
      the guard tries to climb out (every tick until it can). A guard that
      is not trapped is left alone. */
  function Unstuck(f: WorldFields, i: nat): (r: WorldFields)
    requires Shaped(f) && i < |f.guards|
    ensures Shaped(r) && SameLevel(f, r) && r == f.(tiles := r.tiles, guards := r.guards)
    ensures forall j :: 0 <= j < |f.guards| && j != i ==> r.guards[j] == f.guards[j]
    ensures f.guards[i].state != InHole ==> r == f
    ensures f.guards[i].state == InHole && f.guards[i].stuckTimer > 1 ==>
      r == WithGuard(f, i, f.guards[i].(stuckTimer := f.guards[i].stuckTimer - 1))
  {
    var g := f.guards[i];
    if g.state != InHole then f
    else
      var t := if g.stuckTimer > 0 then g.stuckTimer - 1 else 0;
      var f1 := WithGuard(f, i, g.(stuckTimer := t));
      if t == 0 then Escaped(f1, i) else f1
  }

  /** The respawn timer of a dead guard: it counts up, and once it reaches
      `guardRespawnTicks` the guard comes back at (spawnX, 1), standing and
      empty-handed with its timers cleared, unless another living guard
      stands there; then it waits (and tries again next tick). A guard that
      is not dead is left alone. */
  function Respawned(f: WorldFields, i: nat): (r: (WorldFields, seq<GameEvent>))
    requires i < |f.guards|
    ensures r.0 == f.(guards := r.0.guards) && |r.0.guards| == |f.guards|
    ensures forall j :: 0 <= j < |f.guards| && j != i ==> r.0.guards[j] == f.guards[j]
    ensures f.guards[i].state != Dead ==> r == (f, [])
  {
    var g := f.guards[i];
    if g.state != Dead then (f, [])
    else
      var t := g.respawnTimer + 1;
      if t >= f.speed.guardRespawnTicks && !OtherGuardAt(f.guards, i, g.spawnX, 1) then
        (WithGuard(f, i, g.(x := g.spawnX, y := 1, state := OnGround, respawnTimer := 0,
                             carryGold := false, carryGoldTimer := 0, separationTimer := 0)),
         [GuardRespawned(g.id)])
      else (WithGuard(f, i, g.(respawnTimer := t)), [])
  }

  /** A dead guard comes back only at its spawn column on row 1, only once
      its timer has run out, and only when no other living guard is there;
      while it waits its timer grows by one and it stays dead. */
  lemma RespawnOnlyWhenClear(f: WorldFields, i: nat)
    requires i < |f.guards| && f.guards[i].state == Dead
    ensures var r := Respawned(f, i).0; var g := f.guards[i]; var h := r.guards[i];
      (h.state != Dead <==>
         g.respawnTimer + 1 >= f.speed.guardRespawnTicks && !OtherGuardAt(f.guards, i, g.spawnX, 1))
      && (h.state != Dead ==> h.x == g.spawnX && h.y == 1 && h.state == OnGround && !h.carryGold
                              && Respawned(f, i).1 == [GuardRespawned(g.id)])
      && (h.state == Dead ==> h == g.(respawnTimer := g.respawnTimer + 1) && Respawned(f, i).1 == [])
  {
  }

  /** Both timers of guard `i`, in the order the source runs them: the
      escape timer, then the respawn timer. */
  function GuardTimed(f: WorldFields, i: nat): (r: (WorldFields, seq<GameEvent>))
    requires Shaped(f) && i < |f.guards|
    ensures Shaped(r.0) && SameLevel(f, r.0) && r.0 == f.(tiles := r.0.tiles, guards := r.0.guards)
    ensures forall j :: 0 <= j < |f.guards| && j != i ==> r.0.guards[j] == f.guards[j]
  {
    Respawned(Unstuck(f, i), i)
  }

  /** The guard timers of the first `k` guards, in index order. */
  function TimedUpTo(f: WorldFields, k: nat): (r: (WorldFields, seq<GameEvent>))
    requires Shaped(f) && k <= |f.guards|
    ensures Shaped(r.0) && SameLevel(f, r.0) && r.0 == f.(tiles := r.0.tiles, guards := r.0.guards)
    ensures forall j :: k <= j < |f.guards| ==> r.0.guards[j] == f.guards[j]
  {
    if k == 0 then (f, [])
    else
      var prev := TimedUpTo(f, k - 1);
      var next := GuardTimed(prev.0, k - 1);
      (next.0, prev.1 + next.1)
  }

  lemma UnstuckKeepsInv(f: WorldFields, i: nat)
    requires Inv(f) && i < |f.guards|
    ensures Inv(Unstuck(f, i)) && Pickup.GoldInPlay(Unstuck(f, i)) == Pickup.GoldInPlay(f)
  {
    var g := f.guards[i];
    if g.state == InHole {
      var t := if g.stuckTimer > 0 then g.stuckTimer - 1 else 0;
      UpdateGuardKeepsInv(f, i, g.(stuckTimer := t));
      CarriersUpdate(f.guards, i, g.(stuckTimer := t));
      EscapedKeepsInv(WithGuard(f, i, g.(stuckTimer := t)), i);
    }
  }

  /** A respawning guard drops nothing: gold it still held is gone, as in
      the source, which clears the flag without placing the gold. */
  lemma RespawnedKeepsInv(f: WorldFields, i: nat)
    requires Inv(f) && i < |f.guards|
    ensures Inv(Respawned(f, i).0)
  {
    var g := f.guards[i];
    if g.state == Dead {
      var t := g.respawnTimer + 1;
      if t >= f.speed.guardRespawnTicks && !OtherGuardAt(f.guards, i, g.spawnX, 1) {
        UpdateGuardKeepsInv(f, i, g.(x := g.spawnX, y := 1, state := OnGround, respawnTimer := 0,
                                     carryGold := false, carryGoldTimer := 0, separationTimer := 0));
      } else {
        UpdateGuardKeepsInv(f, i, g.(respawnTimer := t));
      }
    }
  }

  lemma GuardTimedKeepsInv(f: WorldFields, i: nat)
    requires Inv(f) && i < |f.guards|
    ensures Inv(GuardTimed(f, i).0)
  {
    UnstuckKeepsInv(f, i);
    RespawnedKeepsInv(Unstuck(f, i), i);
  }

  lemma TimedUpToKeepsInv(f: WorldFields, k: nat)
    requires Inv(f) && k <= |f.guards|
    ensures Inv(TimedUpTo(f, k).0)
  {
    var j := 0;
    while j < k
      invariant j <= k && Inv(TimedUpTo(f, j).0)
    {
      GuardTimedKeepsInv(TimedUpTo(f, j).0, j);
      j := j + 1;
    }
  }

  /** The guard timers of `resolve_timers`, in place. */
  method TickGuardTimers(w: WorldState) returns (events: seq<GameEvent>)
    requires Shaped(w.Fields())
    modifies w
    ensures (w.Fields(), events) == TimedUpTo(old(w.Fields()), |old(w.guards)|)
  {
    ghost var f := w.Fields();
    events := [];
    for i := 0 to |w.guards|
      invariant |w.guards| == |f.guards|
      invariant (w.Fields(), events) == TimedUpTo(f, i)
    {
      ghost var before := w.Fields();
      var ev := TickGuard(w, i);
      assert TimedUpTo(f, i + 1) == (GuardTimed(before, i).0, events + GuardTimed(before, i).1);
      events := events + ev;
    }
  }

  /** Both timers of one guard, in place. */
  method TickGuard(w: WorldState, i: nat) returns (events: seq<GameEvent>)
    requires Shaped(w.Fields()) && i < |w.guards|
    modifies w
    ensures (w.Fields(), events) == GuardTimed(old(w.Fields()), i)
  {
    TickStuck(w, i);
    events := TickRespawn(w, i);
  }

  /** The escape timer of one guard, in place. */
  method TickStuck(w: WorldState, i: nat)
    requires Shaped(w.Fields()) && i < |w.guards|
    modifies w
    ensures w.Fields() == Unstuck(old(w.Fields()), i)
  {
    ghost var f := w.Fields();
    var g := w.guards[i];
    if g.state == InHole {
      if g.stuckTimer > 0 {
        g := g.(stuckTimer := g.stuckTimer - 1);
        w.guards := w.guards[i := g];
      }
      assert w.Fields() == WithGuard(f, i, g);
      if g.stuckTimer == 0 {
        TryEscape(w, i);
      }
    }
  }

  /** The respawn timer of one guard, in place. */
  method TickRespawn(w: WorldState, i: nat) returns (events: seq<GameEvent>)
    requires i < |w.guards|
    modifies w
    ensures (w.Fields(), events) == Respawned(old(w.Fields()), i)
  {
    events := [];
    var g := w.guards[i];
    if g.state == Dead {
      var t := g.respawnTimer + 1;
      var occupied := exists j :: 0 <= j < |w.guards| && j != i && w.guards[j].state != Dead
                                  && w.guards[j].x == g.spawnX && w.guards[j].y == 1;
      if t >= w.speed.guardRespawnTicks && !occupied {
        w.guards := w.guards[i := g.(x := g.spawnX, y := 1, state := OnGround, respawnTimer := 0,
                                     carryGold := false, carryGoldTimer := 0, separationTimer := 0)];
        events := [GuardRespawned(g.id)];
      } else {
        w.guards := w.guards[i := g.(respawnTimer := t)];
      }
    }
  }

  // ---------------------------------------------------------------------
  // Sealing one hole
  // ---------------------------------------------------------------------

  /** What a hole refilling at (hx, hy) does to guard `i`. A trapped guard
      there dies: its respawn timer restarts, the score grows by 50, and
      gold it carried is placed on the cell above when gold may rest there
      and is lost otherwise. A standing guard there is pushed up one row
      when the tile above is passable. Any other guard is left alone. */
  function SealGuard(f: WorldFields, i: nat, hx: nat, hy: nat): (r: (WorldFields, seq<GameEvent>))
    requires Shaped(f) && i < |f.guards|
    ensures Shaped(r.0) && SameLevel(f, r.0) && r.0 == f.(tiles := r.0.tiles, guards := r.0.guards, score := r.0.score)
    ensures forall j :: 0 <= j < |f.guards| && j != i ==> r.0.guards[j] == f.guards[j]
  {
    var g := f.guards[i];
    if g.x != hx || g.y != hy then (f, [])
    else if g.state == InHole then
      var dead := g.(state := Dead, respawnTimer := 0);
      var ev := [GuardKilled(g.id, hx, hy)];
      if g.carryGold then
        var f1 := WithGuard(f, i, dead.(carryGold := false, carryGoldTimer := 0)).(score := f.score + 50);
        if hy > 0 && CanDropGoldAt(f1, hx, hy - 1) then (f1.(tiles := SetCell(f1.tiles, hx, hy - 1, Gold)), ev)
        else (f1, ev)
      else (WithGuard(f, i, dead).(score := f.score + 50), ev)
    else if g.state != Dead && hy > 0 && IsPassable(Rules.TileAt(MapOf(f), hx, hy - 1)) then
      (WithGuard(f, i, g.(y := hy - 1)), [])
    else (f, [])
  }

  /** Guard `i` is trapped at (hx, hy). */
  predicate TrappedAt(g: Guard, hx: nat, hy: nat)
  {
    g.x == hx && g.y == hy && g.state == InHole
  }

  /** How many of `gs` are trapped at (hx, hy). */
  function TrappedCount(gs: seq<Guard>, hx: nat, hy: nat): nat
  {
    if |gs| == 0 then 0
    else TrappedCount(gs[..|gs| - 1], hx, hy) + (if TrappedAt(gs[|gs| - 1], hx, hy) then 1 else 0)
  }

  /** The refill of a hole at (hx, hy) applied to the first `k` guards, in
      index order. */
  function BuriedUpTo(f: WorldFields, hx: nat, hy: nat, k: nat): (r: (WorldFields, seq<GameEvent>))
    requires Shaped(f) && k <= |f.guards|
    ensures Shaped(r.0) && SameLevel(f, r.0) && r.0 == f.(tiles := r.0.tiles, guards := r.0.guards, score := r.0.score)
    ensures forall j :: k <= j < |f.guards| ==> r.0.guards[j] == f.guards[j]
  {
    if k == 0 then (f, [])
    else
      var prev := BuriedUpTo(f, hx, hy, k - 1);
      var next := SealGuard(prev.0, k - 1, hx, hy);
      (next.0, prev.1 + next.1)
  }

  /** One guard's part: a guard trapped at the hole dies and scores 50,
      any other guard keeps its state and the score, the guard is not left
      trapped in the hole, and the only tile that can change is the cell
      above the hole. */
  lemma SealGuardBuries(f: WorldFields, i: nat, hx: nat, hy: nat)
    requires Shaped(f) && i < |f.guards|
    ensures var r := SealGuard(f, i, hx, hy).0; var g := f.guards[i];
      r.score == f.score + (if TrappedAt(g, hx, hy) then 50 else 0)
      && (TrappedAt(g, hx, hy) ==> r.guards[i].state == Dead)
      && (!TrappedAt(g, hx, hy) ==> r.guards[i].state == g.state)
      && !TrappedAt(r.guards[i], hx, hy)
      && (forall y, x :: 0 <= y < f.height && 0 <= x < f.width && (x, y + 1) != (hx, hy) ==> r.tiles[y][x] == f.tiles[y][x])
  {
  }

  /** All guards' parts: `SealGuardBuries` for each of the first `k`. */
  lemma {:induction false} BuriedUpToBuries(f: WorldFields, hx: nat, hy: nat, k: nat)
    requires Shaped(f) && k <= |f.guards|
    ensures var r := BuriedUpTo(f, hx, hy, k).0;
      r.score == f.score + 50 * TrappedCount(f.guards[..k], hx, hy)
      && (forall j :: 0 <= j < k && TrappedAt(f.guards[j], hx, hy) ==> r.guards[j].state == Dead)
      && (forall j :: 0 <= j < k ==> !TrappedAt(r.guards[j], hx, hy))
  {
    if k > 0 {
      BuriedUpToBuries(f, hx, hy, k - 1);
      var prev := BuriedUpTo(f, hx, hy, k - 1).0;
      var r := BuriedUpTo(f, hx, hy, k).0;
      assert r == SealGuard(prev, k - 1, hx, hy).0;
      assert prev.guards[k - 1] == f.guards[k - 1];
      SealGuardBuries(prev, k - 1, hx, hy);
      assert f.guards[..k][..k - 1] == f.guards[..k - 1];
      assert f.guards[..k][k - 1] == f.guards[k - 1];
      assert r.score == f.score + 50 * TrappedCount(f.guards[..k], hx, hy);
      assert forall j :: 0 <= j < k - 1 ==> r.guards[j] == prev.guards[j];
    }
  }

  /** The only tile the guards' part of a refill can change is the cell
      above the hole. */
  lemma {:induction false} BuriedUpToTiles(f: WorldFields, hx: nat, hy: nat, k: nat)
    requires Shaped(f) && k <= |f.guards|
    ensures var r := BuriedUpTo(f, hx, hy, k).0;
      forall y, x :: 0 <= y < f.height && 0 <= x < f.width && (x, y + 1) != (hx, hy) ==> r.tiles[y][x] == f.tiles[y][x]
  {
    if k > 0 {
      BuriedUpToTiles(f, hx, hy, k - 1);
      SealGuardBuries(BuriedUpTo(f, hx, hy, k - 1).0, k - 1, hx, hy);
    }
  }

  /** `resolve_timers` refilling the hole at (hx, hy): the cell reverts to
      its base tile, a living player in it dies, and then every guard is
      handled by `SealGuard`. */
  function SealedAt(f: WorldFields, hx: nat, hy: nat): (r: (WorldFields, seq<GameEvent>))
    requires Layered(f)
    ensures Layered(r.0) && SameLevel(f, r.0)
    ensures r.0 == f.(tiles := r.0.tiles, guards := r.0.guards, score := r.0.score, player := r.0.player, phase := r.0.phase)
  {
    var f1 := if hx < f.width && hy < f.height then f.(tiles := SetCell(f.tiles, hx, hy, f.baseTiles[hy][hx])) else f;
    var killed := f1.player.x == hx && f1.player.y == hy && f1.player.alive;
    var f2 := if killed then Died(f1) else f1;
    var b := BuriedUpTo(f2, hx, hy, |f2.guards|);
    (b.0, [HoleFilled(hx, hy)] + (if killed then [PlayerKilled] else []) + b.1)
  }

  /** A refilled hole is Brick-solid again and buries what is in it: the
      cell holds its base tile, a living player in it is dead, every guard
      trapped in it is dead, and the score grows by 50 for each of those
      guards. */
  lemma SealBuries(f: WorldFields, hx: nat, hy: nat)
    requires Layered(f) && hx < f.width && hy < f.height
    ensures var r := SealedAt(f, hx, hy).0;
      r.tiles[hy][hx] == f.baseTiles[hy][hx]
      && (f.player.alive && f.player.x == hx && f.player.y == hy ==> !r.player.alive && r.phase == Dying)
      && (!(f.player.alive && f.player.x == hx && f.player.y == hy) ==> r.player == f.player && r.phase == f.phase)
      && (forall j :: 0 <= j < |f.guards| && TrappedAt(f.guards[j], hx, hy) ==> r.guards[j].state == Dead)
      && (forall j :: 0 <= j < |f.guards| ==> !TrappedAt(r.guards[j], hx, hy))
      && r.score == f.score + 50 * TrappedCount(f.guards, hx, hy)
  {
    var f1 := f.(tiles := SetCell(f.tiles, hx, hy, f.baseTiles[hy][hx]));
    var killed := f1.player.x == hx && f1.player.y == hy && f1.player.alive;
    var f2 := if killed then Died(f1) else f1;
    BuriedUpToBuries(f2, hx, hy, |f2.guards|);
    BuriedUpToTiles(f2, hx, hy, |f2.guards|);
    assert f2.guards[..|f2.guards|] == f.guards;
  }

  /** `SealGuardGold` for a trapped guard carrying gold. */
  lemma SealCarrierGold(f: WorldFields, i: nat, hx: nat, hy: nat)
    requires Shaped(f) && i < |f.guards| && TrappedAt(f.guards[i], hx, hy) && f.guards[i].carryGold
    ensures var r := SealGuard(f, i, hx, hy).0;
      Pickup.GoldInPlay(r) + (if hy > 0 && CanDropGoldAt(f, hx, hy - 1) then 0 else 1) == Pickup.GoldInPlay(f)
  {
    var g := f.guards[i];
    var h := g.(state := Dead, respawnTimer := 0, carryGold := false, carryGoldTimer := 0);
    assert g.(state := Dead, respawnTimer := 0).(carryGold := false, carryGoldTimer := 0) == h;
    CarriersUpdate(f.guards, i, h);
    var f1 := WithGuard(f, i, h).(score := f.score + 50);
    if hy > 0 {
      assert CanDropGoldAt(f1, hx, hy - 1) == CanDropGoldAt(f, hx, hy - 1);
      if CanDropGoldAt(f1, hx, hy - 1) {
        GoldCountSetCell(f1.tiles, hx, hy - 1, Gold);
      }
    }
  }

  /** A trapped guard's gold is placed above the hole when it may rest
      there; otherwise it is lost while still counted in `goldRemaining`. */
  lemma SealGuardGold(f: WorldFields, i: nat, hx: nat, hy: nat)
    requires Shaped(f) && i < |f.guards|
    ensures var r := SealGuard(f, i, hx, hy).0; var g := f.guards[i];
      var lost := TrappedAt(g, hx, hy) && g.carryGold && !(hy > 0 && CanDropGoldAt(f, hx, hy - 1));
      Pickup.GoldInPlay(r) + (if lost then 1 else 0) == Pickup.GoldInPlay(f)
  {
    var g := f.guards[i];
    if TrappedAt(g, hx, hy) {
      var dead := g.(state := Dead, respawnTimer := 0);
      if g.carryGold {
        SealCarrierGold(f, i, hx, hy);
      } else {
        CarriersUpdate(f.guards, i, dead);
      }
    } else if g.x == hx && g.y == hy && g.state != Dead && hy > 0 {
      CarriersUpdate(f.guards, i, g.(y := hy - 1));
    }
  }

  lemma SealGuardKeepsInv(f: WorldFields, i: nat, hx: nat, hy: nat)
    requires Inv(f) && i < |f.guards| && DugCell(f.baseTiles, f.width, f.height, hx, hy)
    ensures Inv(SealGuard(f, i, hx, hy).0)
  {
    var g := f.guards[i];
    if g.x == hx && g.y == hy {
      var dead := g.(state := Dead, respawnTimer := 0);
      if g.state == InHole {
        if g.carryGold {
          var h := dead.(carryGold := false, carryGoldTimer := 0);
          var f1 := WithGuard(f, i, h).(score := f.score + 50);
          assert CanDropGoldAt(f1, hx, hy - 1) == CanDropGoldAt(f, hx, hy - 1);
          if CanDropGoldAt(f, hx, hy - 1) {
            DropGoldKeepsInv(f, hx, hy - 1, i, h);
          } else {
            UpdateGuardKeepsInv(f, i, h);
          }
        } else {
          UpdateGuardKeepsInv(f, i, dead);
        }
      } else if g.state != Dead {
        UpdateGuardKeepsInv(f, i, g.(y := hy - 1));
      }
    }
  }

  lemma {:induction false} BuriedUpToKeepsInv(f: WorldFields, hx: nat, hy: nat, k: nat)
    requires Inv(f) && k <= |f.guards| && DugCell(f.baseTiles, f.width, f.height, hx, hy)
    ensures Inv(BuriedUpTo(f, hx, hy, k).0)
  {
    if k > 0 {
      BuriedUpToKeepsInv(f, hx, hy, k - 1);
      SealGuardKeepsInv(BuriedUpTo(f, hx, hy, k - 1).0, k - 1, hx, hy);
    }
  }

  lemma SealedAtKeepsInv(f: WorldFields, hx: nat, hy: nat)
    requires Inv(f) && DugCell(f.baseTiles, f.width, f.height, hx, hy)
    ensures Inv(SealedAt(f, hx, hy).0)
  {
    ClearDugCellKeepsInv(f, hx, hy);
    var f1 := f.(tiles := SetCell(f.tiles, hx, hy, f.baseTiles[hy][hx]));
    var killed := f1.player.x == hx && f1.player.y == hy && f1.player.alive;
    var f2 := if killed then Died(f1) else f1;
    BuriedUpToKeepsInv(f2, hx, hy, |f2.guards|);
  }

  /** One guard's part of a refill, in place. */
  method BuryGuard(w: WorldState, i: nat, hx: nat, hy: nat) returns (events: seq<GameEvent>)
    requires Shaped(w.Fields()) && i < |w.guards|
    modifies w
    ensures (w.Fields(), events) == SealGuard(old(w.Fields()), i, hx, hy)
  {
    events := [];
    var g := w.guards[i];
    if g.x != hx || g.y != hy {
      return;
    }
    if g.state == InHole {
      g := g.(state := Dead, respawnTimer := 0);
      w.score := w.score + 50;
      events := [GuardKilled(g.id, hx, hy)];
      if g.carryGold {
        g := g.(carryGold := false, carryGoldTimer := 0);
        w.guards := w.guards[i := g];
        if hy > 0 {
          var canDrop := CanDropGoldAt(w.Fields(), hx, hy - 1);
          if canDrop {
            w.SetTile(hx, hy - 1, Gold);
          }
        }
      } else {
        w.guards := w.guards[i := g];
      }
    } else if g.state != Dead {
      if hy > 0 && IsPassable(w.TerrainAt(hx, hy - 1)) {
        w.guards := w.guards[i := g.(y := g.y - 1)];
      }
    }
  }

  /** `resolve_timers` refilling one hole, in place. */
  method SealHole(w: WorldState, hx: nat, hy: nat) returns (events: seq<GameEvent>)
    requires Layered(w.Fields())
    modifies w
    ensures (w.Fields(), events) == SealedAt(old(w.Fields()), hx, hy)
  {
    ghost var f := w.Fields();
    ghost var f1 := if hx < f.width && hy < f.height then f.(tiles := SetCell(f.tiles, hx, hy, f.baseTiles[hy][hx])) else f;
    w.ClearTile(hx, hy);
    assert w.Fields() == f1;
    ghost var killed := f1.player.x == hx && f1.player.y == hy && f1.player.alive;
    events := [HoleFilled(hx, hy)];
    if w.player.x == hx && w.player.y == hy && w.player.alive {
      events := events + [PlayerKilled];
      PlayerDie(w);
      assert w.Fields() == Died(f1);
    }
    assert w.Fields() == if killed then Died(f1) else f1;
    assert events == [HoleFilled(hx, hy)] + (if killed then [PlayerKilled] else []);
    var buried := BuryAll(w, hx, hy);
    events := events + buried;
  }

  /** Every guard's part of a refill, in place. */
  method BuryAll(w: WorldState, hx: nat, hy: nat) returns (events: seq<GameEvent>)
    requires Shaped(w.Fields())
    modifies w
    ensures (w.Fields(), events) == BuriedUpTo(old(w.Fields()), hx, hy, |old(w.guards)|)
  {
    ghost var f := w.Fields();
    events := [];
    for i := 0 to |w.guards|
      invariant (w.Fields(), events) == BuriedUpTo(f, hx, hy, i)
    {
      ghost var before := w.Fields();
      var ev := BuryGuard(w, i, hx, hy);
      assert (w.Fields(), ev) == SealGuard(before, i, hx, hy);
      events := events + ev;
    }
  }

  // ---------------------------------------------------------------------
  // Hole lifecycle
  // ---------------------------------------------------------------------

  /** Every hole ticked once. */
  function TickedHoles(hs: seq<Hole>): (r: seq<Hole>)
    ensures |r| == |hs| && forall k :: 0 <= k < |hs| ==> r[k] == Tick(hs[k]).0
  {
    seq(|hs|, k requires 0 <= k < |hs| => Tick(hs[k]).0)
  }

  /** The indices, in increasing order, of the holes among the first `k`
      that are no longer active. */
  function DoneUpTo(hs: seq<Hole>, k: nat): (r: seq<nat>)
    requires k <= |hs|
    ensures forall m :: 0 <= m < |r| ==> r[m] < k
  {
    if k == 0 then []
    else DoneUpTo(hs, k - 1) + (if hs[k - 1].IsActive() then [] else [k - 1])
  }

  /** `done` lists, in increasing order, exactly the inactive holes among
      the first `k` of `hs`. */
  ghost predicate DoneIndices(done: seq<nat>, hs: seq<Hole>, k: nat)
  {
    (forall m :: 0 <= m < |done| ==> done[m] < k && done[m] < |hs| && !hs[done[m]].IsActive())
    && (forall m, n :: 0 <= m < n < |done| ==> done[m] < done[n])
    && (forall j :: 0 <= j < k && j < |hs| && !hs[j].IsActive() ==> j in done)
  }

  lemma {:induction false} DoneUpToIsExact(hs: seq<Hole>, k: nat)
    requires k <= |hs|
    ensures DoneIndices(DoneUpTo(hs, k), hs, k)
  {
    if k > 0 {
      DoneUpToIsExact(hs, k - 1);
    }
  }

  /** The holes of `hs` that are still active, in their order. */
  function Actives(hs: seq<Hole>): (r: seq<Hole>)
  {
    if |hs| == 0 then []
    else (if hs[0].IsActive() then [hs[0]] else []) + Actives(hs[1..])
  }

  /** The kept holes are exactly the active ones. */
  lemma {:induction false} ActivesAreActive(hs: seq<Hole>)
    ensures forall h :: h in Actives(hs) <==> h in hs && h.IsActive()
    decreases |hs|
  {
    if |hs| > 0 {
      ActivesAreActive(hs[1..]);
      assert hs == [hs[0]] + hs[1..];
    }
  }

  lemma {:induction false} ActivesAppend(a: seq<Hole>, b: seq<Hole>)
    ensures Actives(a + b) == Actives(a) + Actives(b)
    decreases |a|
  {
    if |a| > 0 {
      assert (a + b)[0] == a[0];
      assert (a + b)[1..] == a[1..] + b;
      ActivesAppend(a[1..], b);
      var head := if a[0].IsActive() then [a[0]] else [];
      calc {
        Actives(a + b);
        head + Actives(a[1..] + b);
        head + (Actives(a[1..]) + Actives(b));
        (head + Actives(a[1..])) + Actives(b);
        Actives(a) + Actives(b);
      }
    } else {
      assert a + b == b;
    }
  }

  lemma {:induction false} ActivesOfActive(a: seq<Hole>)
    requires forall k :: 0 <= k < |a| ==> a[k].IsActive()
    ensures Actives(a) == a
    decreases |a|
  {
    if |a| > 0 {
      ActivesOfActive(a[1..]);
    }
  }

  /** The refills of the holes listed in `done[m..]`, the last listed
      first, as the source does them: each refill is followed by the removal
      of its hole from the list, which starts as `hs`. */
  function SealedFrom(f: WorldFields, hs: seq<Hole>, done: seq<nat>, m: nat): (r: (WorldFields, seq<GameEvent>))
    requires Layered(f) && m <= |done| && forall n :: 0 <= n < |done| ==> done[n] < |hs|
    ensures Layered(r.0) && SameLevel(f, r.0)
    ensures r.0 == f.(tiles := r.0.tiles, guards := r.0.guards, score := r.0.score, player := r.0.player,
                      phase := r.0.phase, holes := Remaining(hs, done, m))
    decreases |done| - m
  {
    if m == |done| then (f.(holes := Remaining(hs, done, m)), [])
    else
      var prev := SealedFrom(f, hs, done, m + 1);
      var h := hs[done[m]];
      var next := SealedAt(prev.0, h.x, h.y);
      (next.0.(holes := Remaining(hs, done, m)), prev.1 + next.1)
  }

  /** The hole grid of `holes`: the only grid `IsHoleGridOf` allows. */
  ghost function HoleGridOf(holes: seq<Hole>, width: nat, height: nat): (g: seq<seq<bool>>)
    ensures Physics.IsHoleGridOf(g, holes, width, height)
  {
    seq(height, y requires 0 <= y < height => seq(width, x requires 0 <= x < width => Physics.ActiveHoleAt(holes, x, y)))
  }

  lemma HoleGridIsUnique(g: seq<seq<bool>>, holes: seq<Hole>, width: nat, height: nat)
    requires Physics.IsHoleGridOf(g, holes, width, height)
    ensures g == HoleGridOf(holes, width, height)
  {
    var h := HoleGridOf(holes, width, height);
    forall y | 0 <= y < height
      ensures g[y] == h[y]
    {
    }
  }

  /** The hole half of `resolve_timers`: every hole ticks; those no longer
      active are refilled, the last first, and removed; the hole grid is
      rebuilt when any was removed. */
  ghost function HolesAged(f: WorldFields): (r: (WorldFields, seq<GameEvent>))
    requires Layered(f)
    ensures Layered(r.0) && SameLevel(f, r.0)
  {
    var ticked := TickedHoles(f.holes);
    var done := DoneUpTo(ticked, |ticked|);
    DoneUpToIsExact(ticked, |ticked|);
    var sealed := SealedFrom(f.(holes := ticked), ticked, done, 0);
    var f1 := sealed.0;
    (if |done| > 0 then f1.(holeGrid := HoleGridOf(f1.holes, f1.width, f1.height)) else f1, sealed.1)
  }

  /** `resolve_timers`: the guard timers in index order, then the hole
      lifecycle. */
  ghost function Timed(f: WorldFields): (r: (WorldFields, seq<GameEvent>))
    requires Layered(f)
    ensures Layered(r.0) && SameLevel(f, r.0)
  {
    var t := TimedUpTo(f, |f.guards|);
    var h := HolesAged(t.0);
    (h.0, t.1 + h.1)
  }

  /** The holes left are exactly those still active after their tick, each
      one tick further on, and the hole grid still marks exactly the active
      holes. */
  lemma HolesAgedKeepsGrid(f: WorldFields)
    requires Layered(f) && Physics.IsHoleGridOf(f.holeGrid, f.holes, f.width, f.height)
    ensures var r := HolesAged(f).0;
      r.holes == Actives(TickedHoles(f.holes))
      && Physics.IsHoleGridOf(r.holeGrid, r.holes, r.width, r.height)
  {
    var ticked := TickedHoles(f.holes);
    var done := DoneUpTo(ticked, |ticked|);
    DoneUpToIsExact(ticked, |ticked|);
    SealedFromHoles(f.(holes := ticked), ticked, done);
    if |done| == 0 {
      NoneExpiredKeepsGrid(f);
    }
  }

  /** When no hole expires on this tick, every hole stays, and the cells
      with an active hole are those there were. */
  lemma NoneExpiredKeepsGrid(f: WorldFields)
    requires Layered(f)
    requires |DoneUpTo(TickedHoles(f.holes), |f.holes|)| == 0
    ensures Actives(TickedHoles(f.holes)) == TickedHoles(f.holes)
    ensures forall y, x :: 0 <= y < f.height && 0 <= x < f.width ==>
      (Physics.ActiveHoleAt(TickedHoles(f.holes), x, y) <==> Physics.ActiveHoleAt(f.holes, x, y))
  {
    var ticked := TickedHoles(f.holes);
    var done := DoneUpTo(ticked, |ticked|);
    DoneUpToIsExact(ticked, |ticked|);
    forall k | 0 <= k < |ticked|
      ensures ticked[k].IsActive() && f.holes[k].IsActive()
    {
      assert k !in done;
    }
    ActivesOfActive(ticked);
    forall y, x | 0 <= y < f.height && 0 <= x < f.width
      ensures Physics.ActiveHoleAt(ticked, x, y) <==> Physics.ActiveHoleAt(f.holes, x, y)
    {
      if Physics.ActiveHoleAt(f.holes, x, y) {
        var k :| 0 <= k < |f.holes| && f.holes[k].x == x && f.holes[k].y == y && f.holes[k].IsActive();
        assert ticked[k].x == x && ticked[k].y == y;
      }
    }
  }

  /** After the refills the list holds exactly the active holes. */
  lemma SealedFromHoles(f: WorldFields, hs: seq<Hole>, done: seq<nat>)
    requires Layered(f) && done == DoneUpTo(hs, |hs|)
    ensures SealedFrom(f, hs, done, 0).0.holes == Actives(hs)
  {
    RemoveFinish(hs, done);
  }

  /** The holes left part-way through the pass are among those there were. */
  lemma RemainingAreListed(hs: seq<Hole>, done: seq<nat>, m: nat)
    requires m <= |done| && Bound(done, m, |hs|) <= |hs|
    ensures forall h :: h in Remaining(hs, done, m) ==> h in hs
  {
    var b := Bound(done, m, |hs|);
    ActivesAreActive(hs[b..]);
    assert hs == hs[..b] + hs[b..];
  }

  /** Aging holes keeps the invariant: refilled cells are dug cells, and
      the holes kept are among the holes there were. */
  lemma {:induction false} SealedFromKeepsInv(f: WorldFields, hs: seq<Hole>, done: seq<nat>, m: nat)
    requires Inv(f) && m <= |done| && forall n :: 0 <= n < |done| ==> done[n] < |hs|
    requires forall h :: h in hs ==> DugCell(f.baseTiles, f.width, f.height, h.x, h.y)
    ensures Inv(SealedFrom(f, hs, done, m).0)
    decreases |done| - m
  {
    if m < |done| {
      SealedFromKeepsInv(f, hs, done, m + 1);
      var prev := SealedFrom(f, hs, done, m + 1).0;
      SealedAtKeepsInv(prev, hs[done[m]].x, hs[done[m]].y);
      RemainingAreListed(hs, done, m);
    }
  }

  lemma HolesAgedKeepsInv(f: WorldFields)
    requires Inv(f)
    ensures Inv(HolesAged(f).0)
  {
    var ticked := TickedHoles(f.holes);
    var done := DoneUpTo(ticked, |ticked|);
    forall h | h in ticked
      ensures DugCell(f.baseTiles, f.width, f.height, h.x, h.y)
    {
      var k :| 0 <= k < |ticked| && ticked[k] == h;
      assert f.holes[k] in f.holes;
    }
    SealedFromKeepsInv(f.(holes := ticked), ticked, done, 0);
  }

  lemma TimedKeepsInv(f: WorldFields)
    requires Inv(f)
    ensures Inv(Timed(f).0)
  {
    TimedUpToKeepsInv(f, |f.guards|);
    HolesAgedKeepsInv(TimedUpTo(f, |f.guards|).0);
  }

  // ---------------------------------------------------------------------
  // The hole lifecycle, in place
  // ---------------------------------------------------------------------

  /** The holes still in `w.holes` part-way through the reverse pass: all
      of them below the `m`-th listed index, and the active ones above. */
  function Bound(done: seq<nat>, m: nat, n: nat): nat
    requires m <= |done|
  {
    if m == |done| then n else done[m]
  }

  function Remaining(hs: seq<Hole>, done: seq<nat>, m: nat): seq<Hole>
    requires m <= |done| && Bound(done, m, |hs|) <= |hs|
  {
    var b := Bound(done, m, |hs|);
    hs[..b] + Actives(hs[b..])
  }

  /** The listed indices never decrease. */
  lemma DoneSorted(hs: seq<Hole>, done: seq<nat>)
    requires done == DoneUpTo(hs, |hs|)
    ensures forall p, q :: 0 <= p <= q < |done| ==> done[p] <= done[q]
  {
    DoneUpToIsExact(hs, |hs|);
    forall p, q | 0 <= p <= q < |done|
      ensures done[p] <= done[q]
    {
      if p < q {
        assert done[p] < done[q];
      }
    }
  }

  /** Below the `m`-th listed index (and above the `m-1`-th, when `m > 0`)
      every hole is active. */
  lemma GapIsActive(hs: seq<Hole>, done: seq<nat>, m: nat, j: nat)
    requires done == DoneUpTo(hs, |hs|) && m <= |done|
    requires (m > 0 ==> done[m - 1] < j) && j < Bound(done, m, |hs|)
    ensures j < |hs| && hs[j].IsActive()
  {
    DoneUpToIsExact(hs, |hs|);
    DoneSorted(hs, done);
    forall p | 0 <= p < |done|
      ensures done[p] != j
    {
      if p < m {
        assert done[p] <= done[m - 1];
      } else {
        assert done[m] <= done[p];
      }
    }
    assert j !in done;
  }

  /** The `m-1`-th listed index is an inactive hole below the `m`-th. */
  lemma BoundAbove(hs: seq<Hole>, done: seq<nat>, m: nat)
    requires done == DoneUpTo(hs, |hs|) && 0 < m <= |done|
    ensures done[m - 1] < Bound(done, m, |hs|) <= |hs| && !hs[done[m - 1]].IsActive()
  {
    DoneUpToIsExact(hs, |hs|);
    if m < |done| {
      assert done[m - 1] < done[m];
    }
  }

  /** Removing the `m-1`-th listed hole takes the pass one step back. */
  lemma RemoveStep(hs: seq<Hole>, done: seq<nat>, m: nat)
    requires done == DoneUpTo(hs, |hs|) && 0 < m <= |done|
    ensures Bound(done, m, |hs|) <= |hs| && Bound(done, m - 1, |hs|) <= |hs|
    ensures var idx := done[m - 1]; var rem := Remaining(hs, done, m);
      idx < |rem| && rem[idx] == hs[idx]
      && rem[..idx] + rem[idx + 1..] == Remaining(hs, done, m - 1)
  {
    var idx := done[m - 1];
    var b := Bound(done, m, |hs|);
    BoundAbove(hs, done, m);
    forall j | idx < j < b
      ensures hs[j].IsActive()
    {
      GapIsActive(hs, done, m, j);
    }
    var rem := Remaining(hs, done, m);
    assert rem[..idx] == hs[..idx];
    assert rem[idx + 1..] == hs[idx + 1..b] + Actives(hs[b..]);
    ActivesOfActive(hs[idx + 1..b]);
    assert hs[idx..][1..] == hs[idx + 1..b] + hs[b..];
    ActivesAppend(hs[idx + 1..b], hs[b..]);
    assert Actives(hs[idx..]) == Actives(hs[idx..][1..]);
  }

  /** Below the first listed index every hole is active. */
  lemma PrefixIsActive(hs: seq<Hole>, done: seq<nat>)
    requires done == DoneUpTo(hs, |hs|)
    ensures Bound(done, 0, |hs|) <= |hs|
    ensures forall k :: 0 <= k < Bound(done, 0, |hs|) ==> hs[..Bound(done, 0, |hs|)][k].IsActive()
  {
    var b := Bound(done, 0, |hs|);
    forall k | 0 <= k < b
      ensures hs[..b][k].IsActive()
    {
      GapIsActive(hs, done, 0, k);
    }
  }

  /** At the end of the pass only the active holes are left. */
  lemma RemoveFinish(hs: seq<Hole>, done: seq<nat>)
    requires done == DoneUpTo(hs, |hs|)
    ensures Bound(done, 0, |hs|) <= |hs| && Remaining(hs, done, 0) == Actives(hs)
  {
    PrefixIsActive(hs, done);
    var b := Bound(done, 0, |hs|);
    ActivesOfActive(hs[..b]);
    ActivesAppend(hs[..b], hs[b..]);
    assert hs[..b] + hs[b..] == hs;
  }

  /** The tick loop of the hole lifecycle, in place. */
  method TickHoles(w: WorldState) returns (done: seq<nat>)
    modifies w
    ensures w.Fields() == old(w.Fields()).(holes := TickedHoles(old(w.holes)))
    ensures done == DoneUpTo(w.holes, |w.holes|)
  {
    ghost var f := w.Fields();
    ghost var ticked := TickedHoles(f.holes);
    done := [];
    for idx := 0 to |w.holes|
      invariant w.Fields() == f.(holes := w.holes) && |w.holes| == |f.holes|
      invariant forall k :: 0 <= k < idx ==> w.holes[k] == ticked[k]
      invariant forall k :: idx <= k < |f.holes| ==> w.holes[k] == f.holes[k]
      invariant done == DoneUpTo(ticked, idx)
    {
      var (h, isDone) := Tick(w.holes[idx]);
      w.holes := w.holes[idx := h];
      if isDone {
        done := done + [idx];
      }
    }
    assert w.holes == ticked;
  }

  /** Before the first step the whole list is there. */
  lemma RemainingStart(hs: seq<Hole>, done: seq<nat>)
    ensures Bound(done, |done|, |hs|) == |hs| && Remaining(hs, done, |done|) == hs
  {
    assert hs[..|hs|] == hs && hs[|hs|..] == [];
  }

  /** The refill loop of the hole lifecycle, in place: the listed holes,
      the last first. */
  method SealDone(w: WorldState, done: seq<nat>) returns (events: seq<GameEvent>)
    requires Layered(w.Fields()) && done == DoneUpTo(w.holes, |w.holes|)
    modifies w
    ensures (w.Fields(), events) == SealedFrom(old(w.Fields()), old(w.holes), done, 0)
  {
    ghost var f := w.Fields();
    ghost var hs := w.holes;
    DoneUpToIsExact(hs, |hs|);
    events := [];
    var m := |done|;
    RemainingStart(hs, done);
    while m > 0
      invariant 0 <= m <= |done|
      invariant (w.Fields(), events) == SealedFrom(f, hs, done, m)
    {
      var ev := SealStep(w, f, hs, done, m);
      events := events + ev;
      m := m - 1;
    }
  }

  /** One refill of the reverse pass, in place: the hole at the `m-1`-th
      listed index is refilled and removed. */
  method SealStep(w: WorldState, ghost f: WorldFields, ghost hs: seq<Hole>, done: seq<nat>, m: nat)
      returns (events: seq<GameEvent>)
    requires Layered(f) && done == DoneUpTo(hs, |hs|) && 0 < m <= |done|
    requires w.Fields() == SealedFrom(f, hs, done, m).0
    modifies w
    ensures (w.Fields(), SealedFrom(f, hs, done, m).1 + events) == SealedFrom(f, hs, done, m - 1)
  {
    RemoveStep(hs, done, m);
    ghost var s := SealedFrom(f, hs, done, m);
    var idx := done[m - 1];
    ghost var sealed := SealedAt(s.0, hs[idx].x, hs[idx].y);
    assert SealedFrom(f, hs, done, m - 1) == (sealed.0.(holes := Remaining(hs, done, m - 1)), s.1 + sealed.1);
    assert w.holes[idx] == hs[idx];
    var hx, hy := w.holes[idx].x, w.holes[idx].y;
    events := SealHole(w, hx, hy);
    ghost var a := w.Fields();
    assert (a, events) == sealed;
    w.holes := w.holes[..idx] + w.holes[idx + 1..];
    assert w.Fields() == a.(holes := Remaining(hs, done, m - 1));
  }

  /** The hole half of `resolve_timers`, in place. */
  method AgeHoles(w: WorldState) returns (events: seq<GameEvent>)
    requires Layered(w.Fields())
    modifies w
    ensures (w.Fields(), events) == HolesAged(old(w.Fields()))
  {
    ghost var f := w.Fields();
    var done := TickHoles(w);
    events := SealDone(w, done);
    if |done| > 0 {
      w.RebuildHoleGrid();
      HoleGridIsUnique(w.holeGrid, w.holes, w.width, w.height);
    }
  }

  /** `resolve_timers`, in place. */
  method ResolveTimers(w: WorldState) returns (events: seq<GameEvent>)
    requires Layered(w.Fields())
    modifies w
    ensures (w.Fields(), events) == Timed(old(w.Fields()))
  {
    var guardEvents := TickGuardTimers(w);
    var holeEvents := AgeHoles(w);
    events := guardEvents + holeEvents;
  }
}
