/** The passes of a tick that pull actors down: trap bricks giving way under
    living actors, gravity for the player and each guard, and guards caught
    by the open holes they stand in. */
module Gravity {
  import opened Common
  import opened Tiles
  import opened Entity
  import opened World
  import opened StepBase
  import Rules
  import Physics

  // ---------------------------------------------------------------------
  // resolve_trap_bricks
  // ---------------------------------------------------------------------

  /** Cells of the guards that are not dead, in guard order. */
  function LivingPositions(gs: seq<Guard>): seq<(nat, nat)>
    decreases |gs|
  {
    if |gs| == 0 then []
    else
      var g := gs[|gs| - 1];
      LivingPositions(gs[..|gs| - 1]) + (if g.state != Dead then [(g.x, g.y)] else [])
  }

  /** Every guard that is not dead is listed. */
  lemma {:induction false} LivingAreListed(gs: seq<Guard>, j: nat)
    requires j < |gs| && gs[j].state != Dead
    ensures (gs[j].x, gs[j].y) in LivingPositions(gs)
    decreases |gs|
  {
    if j < |gs| - 1 {
      assert gs[..|gs| - 1][j] == gs[j];
      LivingAreListed(gs[..|gs| - 1], j);
    }
  }

  /** Only guards that are not dead are listed. */
  lemma {:induction false} ListedAreLiving(gs: seq<Guard>, p: (nat, nat))
    requires p in LivingPositions(gs)
    ensures exists j :: 0 <= j < |gs| && gs[j].state != Dead && (gs[j].x, gs[j].y) == p
    decreases |gs|
  {
    var init := gs[..|gs| - 1];
    if p in LivingPositions(init) {
      ListedAreLiving(init, p);
      var j :| 0 <= j < |init| && init[j].state != Dead && (init[j].x, init[j].y) == p;
      assert gs[j] == init[j];
    } else {
      assert gs[|gs| - 1].state != Dead && (gs[|gs| - 1].x, gs[|gs| - 1].y) == p;
    }
  }

  /** The cells a trap brick may give way under: the living player first,
      then every guard that is not dead. */
  function TrapPositions(f: WorldFields): seq<(nat, nat)>
  {
    (if f.player.alive then [(f.player.x, f.player.y)] else []) + LivingPositions(f.guards)
  }

  /** The tiles and events after the trap bricks under the listed cells have
      collapsed, the cells taken in order. */
  function Collapsed(tiles: seq<seq<Tile>>, width: nat, height: nat, ps: seq<(nat, nat)>): (r: (seq<seq<Tile>>, seq<GameEvent>))
    requires IsGrid(tiles, width, height)
    ensures IsGrid(r.0, width, height)
    decreases |ps|
  {
    if |ps| == 0 then (tiles, [])
    else
      var prev := Collapsed(tiles, width, height, ps[..|ps| - 1]);
      var x, y := ps[|ps| - 1].0, ps[|ps| - 1].1;
      if y + 1 < height && x < width && prev.0[y + 1][x] == TrapBrick then
        (SetCell(prev.0, x, y + 1, Empty), prev.1 + [TrapCollapsed(x, y + 1)])
      else prev
  }

  /** A cell changes exactly when it is a trap brick directly under a listed
      cell, and then it becomes empty. */
  lemma {:induction false} CollapsedCells(tiles: seq<seq<Tile>>, width: nat, height: nat, ps: seq<(nat, nat)>, cx: nat, cy: nat)
    requires IsGrid(tiles, width, height) && cx < width && cy < height
    ensures Collapsed(tiles, width, height, ps).0[cy][cx]
            == if tiles[cy][cx] == TrapBrick && cy > 0 && (cx, cy - 1) in ps then Empty else tiles[cy][cx]
    decreases |ps|
  {
    if |ps| > 0 {
      var init := ps[..|ps| - 1];
      CollapsedCells(tiles, width, height, init, cx, cy);
      assert ps == init + [ps[|ps| - 1]];
    }
  }

  /** Collapsing trap bricks keeps the world invariant. */
  lemma {:induction false} CollapsedKeepsInv(f: WorldFields, ps: seq<(nat, nat)>)
    requires Inv(f)
    ensures Inv(f.(tiles := Collapsed(f.tiles, f.width, f.height, ps).0))
    decreases |ps|
  {
    if |ps| > 0 {
      var init := ps[..|ps| - 1];
      CollapsedKeepsInv(f, init);
      var prev := Collapsed(f.tiles, f.width, f.height, init);
      var x, y := ps[|ps| - 1].0, ps[|ps| - 1].1;
      if y + 1 < f.height && x < f.width && prev.0[y + 1][x] == TrapBrick {
        SetPlainTileKeepsInv(f.(tiles := prev.0), x, y + 1, Empty);
      }
    }
  }

  /** After `resolve_trap_bricks` no living actor stands on a trap brick, and
      the only cells that changed were trap bricks under a living actor,
      which are now empty. */
  lemma TrapBricksGiveWayUnderActors(f: WorldFields)
    requires Shaped(f)
    ensures var r := Collapsed(f.tiles, f.width, f.height, TrapPositions(f)).0;
      (forall j :: 0 <= j < |f.guards| && f.guards[j].state != Dead && f.guards[j].x < f.width && f.guards[j].y + 1 < f.height
         ==> r[f.guards[j].y + 1][f.guards[j].x] != TrapBrick)
      && (f.player.alive && f.player.x < f.width && f.player.y + 1 < f.height
         ==> r[f.player.y + 1][f.player.x] != TrapBrick)
      && (forall cx, cy :: 0 <= cx < f.width && 0 < cy < f.height && r[cy][cx] != f.tiles[cy][cx] ==>
           f.tiles[cy][cx] == TrapBrick && r[cy][cx] == Empty
           && ((f.player.alive && f.player.x == cx && f.player.y == cy - 1)
               || exists j :: 0 <= j < |f.guards| && f.guards[j].state != Dead && f.guards[j].x == cx && f.guards[j].y == cy - 1))
      && (forall cx :: 0 <= cx < f.width && 0 < f.height ==> r[0][cx] == f.tiles[0][cx])
  {
    var ps := TrapPositions(f);
    var r := Collapsed(f.tiles, f.width, f.height, ps).0;
    var head: seq<(nat, nat)> := if f.player.alive then [(f.player.x, f.player.y)] else [];
    forall j | 0 <= j < |f.guards| && f.guards[j].state != Dead && f.guards[j].x < f.width && f.guards[j].y + 1 < f.height
      ensures r[f.guards[j].y + 1][f.guards[j].x] != TrapBrick
    {
      LivingAreListed(f.guards, j);
      CollapsedCells(f.tiles, f.width, f.height, ps, f.guards[j].x, f.guards[j].y + 1);
    }
    if f.player.alive && f.player.x < f.width && f.player.y + 1 < f.height {
      CollapsedCells(f.tiles, f.width, f.height, ps, f.player.x, f.player.y + 1);
    }
    forall cx, cy | 0 <= cx < f.width && 0 < cy < f.height && r[cy][cx] != f.tiles[cy][cx]
      ensures f.tiles[cy][cx] == TrapBrick && r[cy][cx] == Empty
      ensures (f.player.alive && f.player.x == cx && f.player.y == cy - 1)
              || exists j :: 0 <= j < |f.guards| && f.guards[j].state != Dead && f.guards[j].x == cx && f.guards[j].y == cy - 1
    {
      CollapsedCells(f.tiles, f.width, f.height, ps, cx, cy);
      if (cx, cy - 1) !in head {
        ListedAreLiving(f.guards, (cx, cy - 1));
      }
    }
    forall cx | 0 <= cx < f.width && 0 < f.height
      ensures r[0][cx] == f.tiles[0][cx]
    {
      CollapsedCells(f.tiles, f.width, f.height, ps, cx, 0);
    }
  }

  /** The cells `resolve_trap_bricks` visits, collected in order. */
  method CollectTrapPositions(w: WorldState) returns (positions: seq<(nat, nat)>)
    ensures positions == TrapPositions(w.Fields())
  {
    positions := [];
    if w.player.alive {
      positions := [(w.player.x, w.player.y)];
    }
    for i := 0 to |w.guards|
      invariant positions == (if w.player.alive then [(w.player.x, w.player.y)] else []) + LivingPositions(w.guards[..i])
    {
      assert w.guards[..i + 1][..i] == w.guards[..i];
      if w.guards[i].state != Dead {
        positions := positions + [(w.guards[i].x, w.guards[i].y)];
      }
    }
    assert w.guards[..|w.guards|] == w.guards;
  }

  /** Trap bricks under the given cells give way, in place. */
  method CollapseUnder(w: WorldState, positions: seq<(nat, nat)>) returns (events: seq<GameEvent>)
    requires Shaped(w.Fields())
    modifies w
    ensures var f := old(w.Fields()); var c := Collapsed(f.tiles, f.width, f.height, positions);
      w.Fields() == f.(tiles := c.0) && events == c.1
  {
    ghost var f := w.Fields();
    events := [];
    for k := 0 to |positions|
      invariant w.Fields() == f.(tiles := Collapsed(f.tiles, f.width, f.height, positions[..k]).0)
      invariant events == Collapsed(f.tiles, f.width, f.height, positions[..k]).1
    {
      assert positions[..k + 1][..k] == positions[..k];
      var x, y := positions[k].0, positions[k].1;
      var belowY := y + 1;
      if belowY < w.height && w.TerrainAt(x, belowY) == TrapBrick {
        w.SetTile(x, belowY, Empty);
        events := events + [TrapCollapsed(x, belowY)];
      }
    }
    assert positions[..|positions|] == positions;
  }

  /** `resolve_trap_bricks`, in place. */
  method ResolveTrapBricks(w: WorldState) returns (events: seq<GameEvent>)
    requires w.Valid()
    modifies w
    ensures w.Valid()
    ensures var f := old(w.Fields()); var c := Collapsed(f.tiles, f.width, f.height, TrapPositions(f));
      w.Fields() == f.(tiles := c.0) && events == c.1
  {
    ghost var f := w.Fields();
    var positions := CollectTrapPositions(w);
    events := CollapseUnder(w, positions);
    CollapsedKeepsInv(f, positions);
  }

  // ---------------------------------------------------------------------
  // resolve_gravity: the player
  // ---------------------------------------------------------------------

  /** The world and events after the player's gravity. A player in a
      refilling hole stays put. Otherwise a player without support (tiles,
      open holes and standing guards considered) drops one cell when the
      tile below is passable, reporting the start of a fall; a falling player
      that has support lands: its state is resolved from the tiles, never
      left Falling, and its move cooldown is cleared. */
  function PlayerFell(f: WorldFields): (r: (WorldFields, seq<GameEvent>))
    requires Shaped(f)
    ensures r.0 == f.(player := r.0.player)
    ensures r.0.player.x == f.player.x && r.0.player.alive == f.player.alive
    ensures r.0.player.y == f.player.y || r.0.player.y == f.player.y + 1
    ensures r.0.player.y == f.player.y + 1 ==>
      !PlayerInClosingHole(f)
      && !Physics.HasSupportForPlayer(MapOf(f), f.holeGrid, f.guards, f.player.x, f.player.y)
      && Rules.IsPassableAt(MapOf(f), f.player.x, f.player.y + 1)
      && r.0.player.state == Falling
    ensures r.1 == (if r.0.player.y == f.player.y + 1 && f.player.state != Falling then [PlayerFallStart] else [])
    ensures !PlayerInClosingHole(f) && f.player.state == Falling
            && Physics.HasSupportForPlayer(MapOf(f), f.holeGrid, f.guards, f.player.x, f.player.y) ==>
      r.0.player.state != Falling && r.0.player.moveCooldown == 0
  {
    var p := f.player;
    if PlayerInClosingHole(f) then (f, [])
    else if !Physics.HasSupportForPlayer(MapOf(f), f.holeGrid, f.guards, p.x, p.y) then
      if p.y + 1 < f.height && Rules.IsPassableAt(MapOf(f), p.x, p.y + 1) then
        (f.(player := p.(y := p.y + 1, state := Falling)), if p.state != Falling then [PlayerFallStart] else [])
      else (f, [])
    else if p.state == Falling then
      var s := Rules.ResolveState(MapOf(f), p.x, p.y, p.state);
      (f.(player := p.(state := if s == Falling then OnGround else s, moveCooldown := 0)), [])
    else (f, [])
  }

  /** The player's gravity, in place. */
  method PlayerGravity(w: WorldState) returns (events: seq<GameEvent>)
    requires Shaped(w.Fields())
    modifies w
    ensures w.Fields() == PlayerFell(old(w.Fields())).0 && events == PlayerFell(old(w.Fields())).1
  {
    events := [];
    if PlayerInClosingHole(w.Fields()) {
      return;
    }
    var wasFalling := w.player.state == Falling;
    var px, py := w.player.x, w.player.y;
    var fullSupport := Physics.HasSupportForPlayer(w.Map(), w.holeGrid, w.guards, px, py);
    if !fullSupport {
      if py + 1 < w.height && IsPassable(w.TerrainAt(px, py + 1)) {
        w.player := w.player.(y := py + 1, state := Falling);
        if !wasFalling {
          events := events + [PlayerFallStart];
        }
      }
    } else if w.player.state == Falling {
      var s := Rules.ResolveState(w.Map(), px, py, w.player.state);
      if s == Falling {
        s := OnGround;
      }
      w.player := w.player.(state := s, moveCooldown := 0);
    }
  }

  /** The converse of the drop condition in `PlayerFell`: a player outside a
      refilling hole, without support and above an on-map passable cell
      always drops. */
  lemma PlayerDropsWhenFree(f: WorldFields)
    requires Shaped(f) && !PlayerInClosingHole(f)
    requires !Physics.HasSupportForPlayer(MapOf(f), f.holeGrid, f.guards, f.player.x, f.player.y)
    requires f.player.y + 1 < f.height && Rules.IsPassableAt(MapOf(f), f.player.x, f.player.y + 1)
    ensures PlayerFell(f).0.player.y == f.player.y + 1
  {
  }

  lemma PlayerFellKeepsInv(f: WorldFields)
    requires Inv(f)
    ensures Inv(PlayerFell(f).0)
  {
  }

  // ---------------------------------------------------------------------
  // resolve_gravity: the guards
  // ---------------------------------------------------------------------

  /** Guard `i` with state `s`. */
  function Restated(f: WorldFields, i: nat, s: ActorState): WorldFields
    requires i < |f.guards|
  {
    WithGuard(f, i, f.guards[i].(state := s))
  }

  /** Guard `i` standing: a falling guard lands, any other keeps its state. */
  function Landed(f: WorldFields, i: nat): WorldFields
    requires i < |f.guards|
  {
    if f.guards[i].state == Falling then Restated(f, i, OnGround) else f
  }

  /** The world after the gravity step of guard `i`. Dead and trapped guards
      are left alone. A guard in an open hole is trapped unless another
      guard already is, in which case it stands on that guard. A supported
      guard lands. An unsupported guard drops one cell when the cell below is
      passable, into the hole there if the hole is empty; otherwise it
      stands. The guard never moves sideways or up, no other guard changes,
      and the only tile that can change is one the guard's gold drops on. */
  function GuardFell(f: WorldFields, i: nat): (r: WorldFields)
    requires Shaped(f) && i < |f.guards|
    ensures Shaped(r) && SameLevel(f, r)
    ensures r == f.(tiles := r.tiles, guards := r.guards)
    ensures forall j :: 0 <= j < |f.guards| && j != i ==> r.guards[j] == f.guards[j]
    ensures !IsActive(f.guards[i]) ==> r == f
    ensures r.guards[i].x == f.guards[i].x
    ensures r.guards[i].y == f.guards[i].y
            || (r.guards[i].y == f.guards[i].y + 1 && f.guards[i].y + 1 < f.height
                && !Physics.TerrainAt(MapOf(f), f.holeGrid, f.guards[i].x, f.guards[i].y).hole
                && !Physics.HasSupportForGuard(MapOf(f), f.holeGrid, f.guards, f.guards[i].x, f.guards[i].y, i)
                && Physics.TerrainAt(MapOf(f), f.holeGrid, f.guards[i].x, f.guards[i].y + 1).passable)
    ensures IsActive(f.guards[i]) && !Physics.TerrainAt(MapOf(f), f.holeGrid, f.guards[i].x, f.guards[i].y).hole
            && !Physics.HasSupportForGuard(MapOf(f), f.holeGrid, f.guards, f.guards[i].x, f.guards[i].y, i) ==>
      r.guards[i].y == f.guards[i].y + 1
    ensures IsActive(f.guards[i]) && Physics.TerrainAt(MapOf(f), f.holeGrid, f.guards[i].x, f.guards[i].y).hole
            && !Physics.HasTrappedGuardExcept(f.guards, f.guards[i].x, f.guards[i].y, i) ==>
      r.guards[i].state == InHole
    ensures IsActive(f.guards[i]) ==> r.guards[i].state != Dead
  {
    var g := f.guards[i];
    if !IsActive(g) then f
    else
      var m := MapOf(f);
      if Physics.TerrainAt(m, f.holeGrid, g.x, g.y).hole then
        if !Physics.HasTrappedGuardExcept(f.guards, g.x, g.y, i) then
          EnteredHole(f, i, g.x, if g.y > 0 then Some(g.y - 1) else None)
        else Landed(f, i)
      else if Physics.HasSupportForGuard(m, f.holeGrid, f.guards, g.x, g.y, i) then Landed(f, i)
      else
        // Without support the cell below is always on the map, passable and
        // free of trapped guards, so the source's landing branches for the
        // bottom row, a solid cell and a bridge below never apply.
        UnsupportedGuardDrops(f, i);
        if Physics.TerrainAt(m, f.holeGrid, g.x, g.y + 1).hole then
          EnteredHole(WithGuard(f, i, g.(y := g.y + 1)), i, g.x, Some(g.y))
        else WithGuard(f, i, g.(y := g.y + 1, state := Falling))
  }

  /** The gravity step of guard `i`, in place. */
  method GuardGravity(w: WorldState, i: nat)
    requires Shaped(w.Fields()) && i < |w.guards|
    modifies w
    ensures w.Fields() == GuardFell(old(w.Fields()), i)
  {
    var g := w.guards[i];
    if g.state == Dead || g.state == InHole {
      return;
    }
    var here := Physics.TerrainAt(w.Map(), w.holeGrid, g.x, g.y);
    if here.hole {
      if !Physics.HasTrappedGuardExcept(w.guards, g.x, g.y, i) {
        var dropY := if g.y > 0 then Some(g.y - 1) else None;
        GuardEnterHole(w, i, g.x, dropY);
      } else if g.state == Falling {
        w.guards := w.guards[i := g.(state := OnGround)];
      }
      return;
    }
    var supported := Physics.HasSupportForGuard(w.Map(), w.holeGrid, w.guards, g.x, g.y, i);
    if supported {
      if g.state == Falling {
        w.guards := w.guards[i := g.(state := OnGround)];
      }
      return;
    }
    // A guard without support always has a passable cell below that is
    // not a bridge, so the source's landing branches are not reachable here.
    UnsupportedGuardDrops(w.Fields(), i);
    var ny := g.y + 1;
    var below := Physics.TerrainAt(w.Map(), w.holeGrid, g.x, ny);
    if below.hole {
      w.guards := w.guards[i := g.(y := ny)];
      GuardEnterHole(w, i, g.x, Some(g.y));
    } else {
      w.guards := w.guards[i := g.(y := ny, state := Falling)];
    }
  }

  /** An active guard outside a hole and without support is above a
      passable cell of the map that no trapped guard fills: it always drops. */
  lemma UnsupportedGuardDrops(f: WorldFields, i: nat)
    requires Shaped(f) && i < |f.guards| && IsActive(f.guards[i])
    requires !Physics.HasSupportForGuard(MapOf(f), f.holeGrid, f.guards, f.guards[i].x, f.guards[i].y, i)
    ensures f.guards[i].y + 1 < f.height
    ensures Physics.TerrainAt(MapOf(f), f.holeGrid, f.guards[i].x, f.guards[i].y + 1).passable
    ensures !Physics.HasTrappedGuard(f.guards, f.guards[i].x, f.guards[i].y + 1)
  {
    var g := f.guards[i];
    var below: nat := g.y + 1;
    assert Physics.HasTrappedGuard(f.guards, g.x, below) ==> Physics.HasTrappedGuardExcept(f.guards, g.x, below, i);
  }

  lemma GuardFellKeepsInv(f: WorldFields, i: nat)
    requires Inv(f) && i < |f.guards|
    ensures Inv(GuardFell(f, i))
  {
    var g := f.guards[i];
    if IsActive(g) {
      var m := MapOf(f);
      if Physics.TerrainAt(m, f.holeGrid, g.x, g.y).hole {
        if !Physics.HasTrappedGuardExcept(f.guards, g.x, g.y, i) {
          EnteredHoleKeepsInv(f, i, g.x, if g.y > 0 then Some(g.y - 1) else None);
        } else {
          UpdateGuardKeepsInv(f, i, g.(state := OnGround));
        }
      } else if !Physics.HasSupportForGuard(m, f.holeGrid, f.guards, g.x, g.y, i) {
        UnsupportedGuardDrops(f, i);
        UpdateGuardKeepsInv(f, i, g.(y := g.y + 1, state := Falling));
        if Physics.TerrainAt(m, f.holeGrid, g.x, g.y + 1).hole {
          UpdateGuardKeepsInv(f, i, g.(y := g.y + 1));
          EnteredHoleKeepsInv(WithGuard(f, i, g.(y := g.y + 1)), i, g.x, Some(g.y));
        }
      } else {
        UpdateGuardKeepsInv(f, i, g.(state := OnGround));
      }
    }
  }

  /** The world after the gravity steps of guards 0 .. k-1, in order; the
      guards from `k` on are still untouched. */
  function GuardsFellUpTo(f: WorldFields, k: nat): (r: WorldFields)
    requires Shaped(f) && k <= |f.guards|
    ensures Shaped(r) && SameLevel(f, r)
    ensures r == f.(tiles := r.tiles, guards := r.guards)
    ensures forall j :: k <= j < |f.guards| ==> r.guards[j] == f.guards[j]
    decreases k
  {
    if k == 0 then f else GuardFell(GuardsFellUpTo(f, k - 1), k - 1)
  }

  /** `resolve_gravity` as a whole: the player first, then every guard. */
  function Gravity(f: WorldFields): (r: (WorldFields, seq<GameEvent>))
    requires Shaped(f)
  {
    var p := PlayerFell(f);
    (GuardsFellUpTo(p.0, |f.guards|), p.1)
  }

  lemma {:induction false} GuardsFellUpToKeepsInv(f: WorldFields, k: nat)
    requires Inv(f) && k <= |f.guards|
    ensures Inv(GuardsFellUpTo(f, k))
    decreases k
  {
    if k > 0 {
      GuardsFellUpToKeepsInv(f, k - 1);
      GuardFellKeepsInv(GuardsFellUpTo(f, k - 1), k - 1);
    }
  }

  /** Under gravity every guard keeps its column and drops at most one row. */
  lemma {:induction false} GuardsDropAtMostOneRow(f: WorldFields, k: nat)
    requires Shaped(f) && k <= |f.guards|
    ensures var r := GuardsFellUpTo(f, k);
      forall j :: 0 <= j < |f.guards| ==>
        r.guards[j].x == f.guards[j].x && f.guards[j].y <= r.guards[j].y <= f.guards[j].y + 1
    decreases k
  {
    if k > 0 {
      GuardsDropAtMostOneRow(f, k - 1);
    }
  }

  lemma GravityKeepsInv(f: WorldFields)
    requires Inv(f)
    ensures Inv(Gravity(f).0)
  {
    PlayerFellKeepsInv(f);
    GuardsFellUpToKeepsInv(PlayerFell(f).0, |f.guards|);
  }

  /** `resolve_gravity`, in place. */
  method ResolveGravity(w: WorldState) returns (events: seq<GameEvent>)
    requires w.Valid()
    modifies w
    ensures w.Valid()
    ensures w.Fields() == Gravity(old(w.Fields())).0 && events == Gravity(old(w.Fields())).1
  {
    ghost var f := w.Fields();
    events := PlayerGravity(w);
    ghost var f1 := w.Fields();
    for i := 0 to |w.guards|
      invariant w.Fields() == GuardsFellUpTo(f1, i)
    {
      GuardGravity(w, i);
    }
    GravityKeepsInv(f);
  }

  // ---------------------------------------------------------------------
  // resolve_hole_traps
  // ---------------------------------------------------------------------

  /** An active guard standing in an open hole that holds no other trapped
      guard. */
  predicate Catchable(f: WorldFields, i: nat)
    requires Shaped(f) && i < |f.guards|
  {
    var g := f.guards[i];
    IsActive(g) && Physics.TerrainAt(MapOf(f), f.holeGrid, g.x, g.y).hole
    && !Physics.HasTrappedGuardExcept(f.guards, g.x, g.y, i)
  }

  /** The world and events after the hole-trap step of guard `i`: a
      catchable guard is trapped (its gold dropping on the cell above the
      hole if it may rest there) and reported; otherwise nothing happens. */
  function Caught(f: WorldFields, i: nat): (r: (WorldFields, seq<GameEvent>))
    requires Shaped(f) && i < |f.guards|
    ensures Shaped(r.0) && SameLevel(f, r.0)
    ensures r.0 == f.(tiles := r.0.tiles, guards := r.0.guards)
    ensures forall j :: 0 <= j < |f.guards| && j != i ==> r.0.guards[j] == f.guards[j]
    ensures r.0.guards[i].x == f.guards[i].x && r.0.guards[i].y == f.guards[i].y
    ensures Catchable(f, i) ==> r.0.guards[i].state == InHole
                                && r.1 == [GuardTrapped(f.guards[i].id, f.guards[i].x, f.guards[i].y)]
    ensures !Catchable(f, i) ==> r == (f, [])
  {
    var g := f.guards[i];
    if Catchable(f, i) then
      EnteredHoleConservesGold(f, i, g.x, if g.y > 0 then Some(g.y - 1) else None);
      (EnteredHole(f, i, g.x, if g.y > 0 then Some(g.y - 1) else None), [GuardTrapped(g.id, g.x, g.y)])
    else (f, [])
  }

  /** The world and events after the hole-trap steps of guards 0 .. k-1. */
  function CaughtUpTo(f: WorldFields, k: nat): (r: (WorldFields, seq<GameEvent>))
    requires Shaped(f) && k <= |f.guards|
    ensures Shaped(r.0) && SameLevel(f, r.0)
    ensures r.0 == f.(tiles := r.0.tiles, guards := r.0.guards)
    ensures forall j :: k <= j < |f.guards| ==> r.0.guards[j] == f.guards[j]
    decreases k
  {
    if k == 0 then (f, [])
    else
      var prev := CaughtUpTo(f, k - 1);
      var c := Caught(prev.0, k - 1);
      (c.0, prev.1 + c.1)
  }

  /** The open-hole flag of a cell depends only on the map size and the hole
      grid, not on the tiles. */
  lemma HoleFlagIgnoresTiles(f: WorldFields, r: WorldFields, x: nat, y: nat)
    requires Shaped(f) && Shaped(r) && r.width == f.width && r.height == f.height && r.holeGrid == f.holeGrid
    ensures Physics.TerrainAt(MapOf(r), r.holeGrid, x, y).hole == Physics.TerrainAt(MapOf(f), f.holeGrid, x, y).hole
  {
  }

  /** A hole-trap step never frees a trapped guard. */
  lemma CaughtKeepsTrapped(f: WorldFields, i: nat, x: nat, y: nat)
    requires Shaped(f) && i < |f.guards| && Physics.HasTrappedGuard(f.guards, x, y)
    ensures Physics.HasTrappedGuard(Caught(f, i).0.guards, x, y)
  {
    var t :| 0 <= t < |f.guards| && f.guards[t].x == x && f.guards[t].y == y && f.guards[t].state == InHole;
    var r := Caught(f, i).0;
    if t == i {
      assert !Catchable(f, i);
    }
    assert r.guards[t] == f.guards[t];
  }

  /** After its hole-trap step an active guard in an open hole has a
      trapped guard at its cell: itself, or the one it stands on. */
  lemma CaughtMansHole(f: WorldFields, i: nat)
    requires Shaped(f) && i < |f.guards| && IsActive(f.guards[i])
    requires Physics.TerrainAt(MapOf(f), f.holeGrid, f.guards[i].x, f.guards[i].y).hole
    ensures Physics.HasTrappedGuard(Caught(f, i).0.guards, f.guards[i].x, f.guards[i].y)
  {
    var x, y := f.guards[i].x, f.guards[i].y;
    var r := Caught(f, i).0;
    if Catchable(f, i) {
      assert r.guards[i].state == InHole;
    } else {
      var t :| 0 <= t < |f.guards| && t != i && f.guards[t].x == x && f.guards[t].y == y && f.guards[t].state == InHole;
      assert r.guards[t] == f.guards[t];
    }
  }

  /** The hole traps move no guard. */
  lemma {:induction false} HoleTrapsMoveNoGuard(f: WorldFields, k: nat)
    requires Shaped(f) && k <= |f.guards|
    ensures forall j :: 0 <= j < |f.guards| ==>
      CaughtUpTo(f, k).0.guards[j].x == f.guards[j].x && CaughtUpTo(f, k).0.guards[j].y == f.guards[j].y
    decreases k
  {
    if k > 0 {
      HoleTrapsMoveNoGuard(f, k - 1);
    }
  }

  /** After the hole traps every open hole that held an active guard holds a
      trapped one. */
  lemma {:induction false} HoleTrapsLeaveNoHoleUnmanned(f: WorldFields, k: nat)
    requires Shaped(f) && k <= |f.guards|
    ensures forall j :: (0 <= j < k && IsActive(f.guards[j])
                         && Physics.TerrainAt(MapOf(f), f.holeGrid, f.guards[j].x, f.guards[j].y).hole) ==>
          Physics.HasTrappedGuard(CaughtUpTo(f, k).0.guards, f.guards[j].x, f.guards[j].y)
    decreases k
  {
    if k > 0 {
      HoleTrapsLeaveNoHoleUnmanned(f, k - 1);
      var prev := CaughtUpTo(f, k - 1).0;
      forall j | 0 <= j < k && IsActive(f.guards[j])
                 && Physics.TerrainAt(MapOf(f), f.holeGrid, f.guards[j].x, f.guards[j].y).hole
        ensures Physics.HasTrappedGuard(CaughtUpTo(f, k).0.guards, f.guards[j].x, f.guards[j].y)
      {
        if j == k - 1 {
          HoleFlagIgnoresTiles(f, prev, f.guards[j].x, f.guards[j].y);
          CaughtMansHole(prev, j);
        } else {
          CaughtKeepsTrapped(prev, k - 1, f.guards[j].x, f.guards[j].y);
        }
      }
    }
  }

  lemma CaughtKeepsInv(f: WorldFields, i: nat)
    requires Inv(f) && i < |f.guards|
    ensures Inv(Caught(f, i).0)
  {
    var g := f.guards[i];
    EnteredHoleKeepsInv(f, i, g.x, if g.y > 0 then Some(g.y - 1) else None);
  }

  lemma {:induction false} CaughtUpToKeepsInv(f: WorldFields, k: nat)
    requires Inv(f) && k <= |f.guards|
    ensures Inv(CaughtUpTo(f, k).0)
    decreases k
  {
    if k > 0 {
      CaughtUpToKeepsInv(f, k - 1);
      CaughtKeepsInv(CaughtUpTo(f, k - 1).0, k - 1);
    }
  }

  /** The hole-trap step of guard `i`, in place. */
  method TrapGuard(w: WorldState, i: nat) returns (events: seq<GameEvent>)
    requires Shaped(w.Fields()) && i < |w.guards|
    modifies w
    ensures w.Fields() == Caught(old(w.Fields()), i).0 && events == Caught(old(w.Fields()), i).1
  {
    events := [];
    var g := w.guards[i];
    if g.state == InHole || g.state == Dead {
      return;
    }
    var here := Physics.TerrainAt(w.Map(), w.holeGrid, g.x, g.y);
    if here.hole && !Physics.HasTrappedGuardExcept(w.guards, g.x, g.y, i) {
      events := [GuardTrapped(g.id, g.x, g.y)];
      var dropY := if g.y > 0 then Some(g.y - 1) else None;
      GuardEnterHole(w, i, g.x, dropY);
    }
  }

  /** `resolve_hole_traps`, in place. */
  method ResolveHoleTraps(w: WorldState) returns (events: seq<GameEvent>)
    requires w.Valid()
    modifies w
    ensures w.Valid()
    ensures var c := CaughtUpTo(old(w.Fields()), |old(w.guards)|); w.Fields() == c.0 && events == c.1
  {
    ghost var f := w.Fields();
    events := [];
    for i := 0 to |w.guards|
      invariant w.Fields() == CaughtUpTo(f, i).0 && events == CaughtUpTo(f, i).1
    {
      var e := TrapGuard(w, i);
      events := events + e;
    }
    CaughtUpToKeepsInv(f, |f.guards|);
  }
}
