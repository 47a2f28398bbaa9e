/** The physics layer: terrain (tiles overlaid with the open holes) and
    occupancy (which guards stand where), combined into support and state
    resolution. */
module Physics {
  import opened Common
  import opened Tiles
  import opened Entity
  import Rules

  /** What a cell looks like to movement once holes are taken into account. */
  datatype TerrainCell = TerrainCell(passable: bool, climbable: bool, hangable: bool, hole: bool)

  /** Is `hg[y][x]` present and set? The hole grid need not have the map's shape. */
  predicate HoleMarked(hg: seq<seq<bool>>, x: nat, y: nat)
  {
    y < |hg| && x < |hg[y]| && hg[y][x]
  }

  /** `physics::terrain_at`: outside the map nothing is passable; an open hole
      is passable empty space whatever tile lies under it; otherwise the
      tile's own properties. */
  function TerrainAt(m: Rules.MapView, hg: seq<seq<bool>>, x: nat, y: nat): (c: TerrainCell)
    requires m.Valid()
    ensures x >= m.width || y >= m.height ==> c == TerrainCell(false, false, false, false)
    ensures x < m.width && y < m.height && HoleMarked(hg, x, y) ==> c == TerrainCell(true, false, false, true)
    ensures x < m.width && y < m.height && !HoleMarked(hg, x, y) ==>
      !c.hole && c.passable == IsPassable(m.tiles[y][x])
      && c.climbable == IsClimbable(m.tiles[y][x]) && c.hangable == IsHangable(m.tiles[y][x])
    ensures c.hole ==> c.passable && !c.climbable && !c.hangable
  {
    if x >= m.width || y >= m.height then TerrainCell(false, false, false, false)
    else if HoleMarked(hg, x, y) then TerrainCell(true, false, false, true)
    else
      var t := m.tiles[y][x];
      TerrainCell(IsPassable(t), IsClimbable(t), IsHangable(t), false)
  }

  /** `physics::terrain_support`: support from terrain alone. */
  function TerrainSupport(m: Rules.MapView, hg: seq<seq<bool>>, x: nat, y: nat): (b: bool)
    requires m.Valid()
    ensures y + 1 >= m.height ==> b
    ensures (y + 1 < m.height && x < m.width && HoleMarked(hg, x, y + 1) && !HoleMarked(hg, x, y)
             && m.tiles[y][x] !in {Ladder, HiddenLadder, Rope}) ==> !b
  {
    if y + 1 >= m.height then true
    else
      var here := TerrainAt(m, hg, x, y);
      if here.climbable || here.hangable then true
      else
        var below := TerrainAt(m, hg, x, y + 1);
        !below.passable || below.climbable
  }

  /** With no open hole on the map, terrain support is exactly the rule
      layer's `MapView::has_support`. */
  lemma NoHolesSupportAgreesWithRules(m: Rules.MapView, hg: seq<seq<bool>>, x: nat, y: nat)
    requires m.Valid()
    requires forall j, i :: 0 <= j < |hg| && 0 <= i < |hg[j]| ==> !hg[j][i]
    ensures TerrainSupport(m, hg, x, y) == Rules.HasSupport(m, x, y)
  {
    assert !HoleMarked(hg, x, y) && !HoleMarked(hg, x, y + 1);
  }

  /** An open hole below an actor on plain ground removes the support the
      brick used to give. */
  lemma HoleBelowRemovesSupport(m: Rules.MapView, hg: seq<seq<bool>>, x: nat, y: nat)
    requires m.Valid() && x < m.width && y + 1 < m.height
    requires m.tiles[y][x] in {Empty, Gold} && !HoleMarked(hg, x, y) && HoleMarked(hg, x, y + 1)
    ensures Rules.HasSupport(m, x, y) == (m.tiles[y + 1][x] in {Brick, Concrete, TrapBrick, Ladder, HiddenLadder})
    ensures !TerrainSupport(m, hg, x, y)
  {
  }

  // ---- Occupancy ----

  /** `has_trapped_guard`: an InHole guard stands at (x, y). */
  predicate HasTrappedGuard(guards: seq<Guard>, x: nat, y: nat)
  {
    exists j :: 0 <= j < |guards| && guards[j].x == x && guards[j].y == y && guards[j].state == InHole
  }

  /** `has_trapped_guard_except`: the same, ignoring the guard at index `skip`. */
  predicate HasTrappedGuardExcept(guards: seq<Guard>, x: nat, y: nat, skip: nat)
  {
    exists j :: 0 <= j < |guards| && j != skip && guards[j].x == x && guards[j].y == y && guards[j].state == InHole
  }

  /** `has_active_guard`: a guard that is neither Dead nor InHole stands at (x, y). */
  predicate HasActiveGuard(guards: seq<Guard>, x: nat, y: nat)
  {
    exists j :: 0 <= j < |guards| && guards[j].x == x && guards[j].y == y
      && guards[j].state != Dead && guards[j].state != InHole
  }

  /** `has_standing_guard`: a guard that is neither Dead nor Falling stands at
      (x, y); the player can walk on its head. */
  predicate HasStandingGuard(guards: seq<Guard>, x: nat, y: nat)
  {
    exists j :: 0 <= j < |guards| && guards[j].x == x && guards[j].y == y
      && guards[j].state != Dead && guards[j].state != Falling
  }

  /** `has_active_guard_except`. */
  predicate HasActiveGuardExcept(guards: seq<Guard>, x: nat, y: nat, skip: nat)
  {
    exists j :: 0 <= j < |guards| && j != skip && guards[j].x == x && guards[j].y == y
      && guards[j].state != Dead && guards[j].state != InHole
  }

  /** Every trapped guard is a standing guard: a head the player can walk on. */
  lemma TrappedGuardIsStanding(guards: seq<Guard>, x: nat, y: nat)
    ensures HasTrappedGuard(guards, x, y) ==> HasStandingGuard(guards, x, y)
    ensures HasActiveGuard(guards, x, y) ==> HasStandingGuard(guards, x, y) || exists j :: 0 <= j < |guards| && guards[j].x == x && guards[j].y == y && guards[j].state == Falling
  {
  }

  // ---- Combined queries ----

  /** `physics::has_support`: terrain support, or a trapped guard directly
      below acting as floor. */
  function HasSupport(m: Rules.MapView, hg: seq<seq<bool>>, guards: seq<Guard>, x: nat, y: nat): (b: bool)
    requires m.Valid()
    ensures TerrainSupport(m, hg, x, y) ==> b
    ensures !TerrainSupport(m, hg, x, y) ==> (b <==> HasTrappedGuard(guards, x, y + 1))
  {
    if TerrainSupport(m, hg, x, y) then true
    else y + 1 < m.height && HasTrappedGuard(guards, x, y + 1)
  }

  /** Guards below that are standing on the ground, or dead, are no floor for
      other guards: only trapped ones count. */
  lemma OnlyTrappedGuardsSupport(m: Rules.MapView, hg: seq<seq<bool>>, guards: seq<Guard>, x: nat, y: nat)
    requires m.Valid() && !TerrainSupport(m, hg, x, y)
    requires forall j :: 0 <= j < |guards| && guards[j].x == x && guards[j].y == y + 1 ==> guards[j].state != InHole
    ensures !HasSupport(m, hg, guards, x, y)
  {
  }

  /** `physics::has_support_for_player`: terrain, or any guard below that is
      neither Dead nor Falling. */
  function HasSupportForPlayer(m: Rules.MapView, hg: seq<seq<bool>>, guards: seq<Guard>, x: nat, y: nat): (b: bool)
    requires m.Valid()
    ensures TerrainSupport(m, hg, x, y) ==> b
    ensures !TerrainSupport(m, hg, x, y) ==> (b <==> HasStandingGuard(guards, x, y + 1))
  {
    if TerrainSupport(m, hg, x, y) then true
    else y + 1 < m.height && HasStandingGuard(guards, x, y + 1)
  }

  /** The player is supported whenever an actor in general is, and also by a
      guard below that is merely standing (head-walking). */
  lemma {:induction false} PlayerSupportExtendsSupport(m: Rules.MapView, hg: seq<seq<bool>>, guards: seq<Guard>, x: nat, y: nat)
    requires m.Valid()
    ensures HasSupport(m, hg, guards, x, y) ==> HasSupportForPlayer(m, hg, guards, x, y)
    ensures y + 1 < m.height && HasStandingGuard(guards, x, y + 1) ==> HasSupportForPlayer(m, hg, guards, x, y)
  {
    if HasSupport(m, hg, guards, x, y) && !TerrainSupport(m, hg, x, y) {
      var j :| 0 <= j < |guards| && guards[j].x == x && guards[j].y == y + 1 && guards[j].state == InHole;
      assert guards[j].state != Dead && guards[j].state != Falling;
    }
  }

  /** `physics::has_support_for_guard`: like `has_support`, but the guard at
      index `guardIdx` is never its own floor. */
  function HasSupportForGuard(m: Rules.MapView, hg: seq<seq<bool>>, guards: seq<Guard>, x: nat, y: nat, guardIdx: nat): (b: bool)
    requires m.Valid()
    ensures TerrainSupport(m, hg, x, y) ==> b
    ensures !TerrainSupport(m, hg, x, y) ==> (b <==> HasTrappedGuardExcept(guards, x, y + 1, guardIdx))
  {
    if TerrainSupport(m, hg, x, y) then true
    else y + 1 < m.height && HasTrappedGuardExcept(guards, x, y + 1, guardIdx)
  }

  /** `guards` without the element at index `i`. */
  function RemoveAt<T>(s: seq<T>, i: nat): (r: seq<T>)
    requires i < |s|
    ensures |r| + 1 == |s|
    ensures forall j :: 0 <= j < i ==> r[j] == s[j]
    ensures forall j :: i <= j < |r| ==> r[j] == s[j + 1]
  {
    s[..i] + s[i + 1..]
  }

  /** A guard's own support is computed exactly as if that guard were not on
      the map at all. */
  lemma {:induction false} GuardSupportIgnoresSelf(m: Rules.MapView, hg: seq<seq<bool>>, guards: seq<Guard>, x: nat, y: nat, guardIdx: nat)
    requires m.Valid() && guardIdx < |guards|
    ensures HasSupportForGuard(m, hg, guards, x, y, guardIdx) == HasSupport(m, hg, RemoveAt(guards, guardIdx), x, y)
  {
    var rest := RemoveAt(guards, guardIdx);
    if HasTrappedGuardExcept(guards, x, y + 1, guardIdx) {
      var j :| 0 <= j < |guards| && j != guardIdx && guards[j].x == x && guards[j].y == y + 1 && guards[j].state == InHole;
      var k := if j < guardIdx then j else j - 1;
      assert rest[k] == guards[j];
    }
    if HasTrappedGuard(rest, x, y + 1) {
      var k :| 0 <= k < |rest| && rest[k].x == x && rest[k].y == y + 1 && rest[k].state == InHole;
      var j := if k < guardIdx then k else k + 1;
      assert guards[j] == rest[k] && j != guardIdx;
    }
  }

  /** `physics::resolve_state`: as the rule layer's resolution, with holes in
      the terrain and trapped guards counted as floor. */
  function ResolveState(m: Rules.MapView, hg: seq<seq<bool>>, guards: seq<Guard>, x: nat, y: nat, current: ActorState): (s: ActorState)
    requires m.Valid()
    ensures Rules.IsSticky(current) ==> s == current
    ensures !Rules.IsSticky(current) ==>
      !Rules.IsSticky(s) &&
      (s == OnLadder <==> TerrainAt(m, hg, x, y).climbable) &&
      (s == OnRope <==> !TerrainAt(m, hg, x, y).climbable && TerrainAt(m, hg, x, y).hangable) &&
      (s == Falling <==> !HasSupport(m, hg, guards, x, y))
  {
    if Rules.IsSticky(current) then current
    else
      var here := TerrainAt(m, hg, x, y);
      if here.climbable then OnLadder
      else if here.hangable then OnRope
      else if HasSupport(m, hg, guards, x, y) then OnGround
      else Falling
  }

  /** With no open hole and no trapped guard anywhere, the physics layer
      resolves states exactly as the terrain-only rules do. */
  lemma NoHolesResolveAgreesWithRules(m: Rules.MapView, hg: seq<seq<bool>>, guards: seq<Guard>, x: nat, y: nat, current: ActorState)
    requires m.Valid()
    requires forall j, i :: 0 <= j < |hg| && 0 <= i < |hg[j]| ==> !hg[j][i]
    requires forall j :: 0 <= j < |guards| ==> guards[j].state != InHole
    ensures ResolveState(m, hg, guards, x, y, current) == Rules.ResolveState(m, x, y, current)
  {
    NoHolesSupportAgreesWithRules(m, hg, x, y);
    assert !HoleMarked(hg, x, y);
  }

  // ---- Hole grid ----

  /** Some active hole of `holes` sits at (x, y). */
  ghost predicate ActiveHoleAt(holes: seq<Hole>, x: nat, y: nat)
  {
    exists i :: 0 <= i < |holes| && holes[i].x == x && holes[i].y == y && holes[i].IsActive()
  }

  /** `hg` is the hole grid of `holes` on a `height` x `width` map. */
  ghost predicate IsHoleGridOf(hg: seq<seq<bool>>, holes: seq<Hole>, width: nat, height: nat)
  {
    IsGrid(hg, width, height) &&
    forall y, x :: 0 <= y < height && 0 <= x < width ==> (hg[y][x] <==> ActiveHoleAt(holes, x, y))
  }

  /** `physics::build_hole_grid`: a `height` x `width` grid, true exactly
      where an active in-bounds hole lies. */
  method BuildHoleGrid(holes: seq<Hole>, width: nat, height: nat) returns (grid: seq<seq<bool>>)
    ensures IsHoleGridOf(grid, holes, width, height)
  {
    grid := seq(height, _ => seq(width, _ => false));
    var k := 0;
    while k < |holes|
      invariant 0 <= k <= |holes|
      invariant IsGrid(grid, width, height)
      invariant forall y, x :: 0 <= y < height && 0 <= x < width ==>
        (grid[y][x] <==> ActiveHoleAt(holes[..k], x, y))
    {
      var h := holes[k];
      if h.x < width && h.y < height && h.IsActive() {
        grid := SetCell(grid, h.x, h.y, true);
      }
      forall y, x | 0 <= y < height && 0 <= x < width
        ensures ActiveHoleAt(holes[..k + 1], x, y) <==> ActiveHoleAt(holes[..k], x, y) || (h.x == x && h.y == y && h.IsActive())
      {
        if ActiveHoleAt(holes[..k + 1], x, y) {
          var i :| 0 <= i < k + 1 && holes[..k + 1][i].x == x && holes[..k + 1][i].y == y && holes[..k + 1][i].IsActive();
          if i < k { assert holes[..k][i] == holes[..k + 1][i]; }
        }
        if ActiveHoleAt(holes[..k], x, y) {
          var i :| 0 <= i < k && holes[..k][i].x == x && holes[..k][i].y == y && holes[..k][i].IsActive();
          assert holes[..k + 1][i] == holes[..k][i];
        }
        if h.x == x && h.y == y && h.IsActive() {
          assert holes[..k + 1][k] == h;
        }
      }
      k := k + 1;
    }
    assert holes[..k] == holes;
  }
}
