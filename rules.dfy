/** Terrain-only game rules: tile lookup, support, actor-state resolution,
    movement legality and dig legality. Nothing here looks at other actors. */
module Rules {
  import opened Common
  import opened Tiles
  import opened Entity

  /** A read-only view of a `height` x `width` tile grid. */
  datatype MapView = MapView(tiles: seq<seq<Tile>>, width: nat, height: nat)
  {
    ghost predicate Valid()
    {
      IsGrid(tiles, width, height)
    }
  }

  /** `MapView::tile_at`: the tile at a cell; everything outside the map is
      a Concrete wall. */
  function TileAt(m: MapView, x: nat, y: nat): (t: Tile)
    requires m.Valid()
    ensures x >= m.width || y >= m.height ==> t == Concrete
    ensures x < m.width && y < m.height ==> t == m.tiles[y][x]
  {
    if x >= m.width || y >= m.height then Concrete else m.tiles[y][x]
  }

  /** `MapView::is_passable`: an actor may occupy the cell. */
  function IsPassableAt(m: MapView, x: nat, y: nat): (b: bool)
    requires m.Valid()
    ensures b <==> TileAt(m, x, y) in {Empty, Ladder, Rope, Gold, HiddenLadder}
    ensures b ==> x < m.width && y < m.height
  {
    IsPassable(TileAt(m, x, y))
  }

  /** `MapView::has_support`: the bottom row is a floor, ladders and ropes
      hold an actor, and so does a solid or climbable tile underneath. */
  function HasSupport(m: MapView, x: nat, y: nat): (b: bool)
    requires m.Valid()
    ensures b <==>
      y + 1 >= m.height
      || TileAt(m, x, y) in {Ladder, HiddenLadder, Rope}
      || TileAt(m, x, y + 1) in {Brick, Concrete, TrapBrick, Ladder, HiddenLadder}
  {
    if y + 1 >= m.height then true
    else
      var here := TileAt(m, x, y);
      if IsClimbable(here) || IsHangable(here) then true
      else
        var below := TileAt(m, x, y + 1);
        IsSolid(below) || IsClimbable(below)
  }

  /** `Dead` and `InHole` are terminal: no terrain changes them. */
  predicate IsSticky(s: ActorState)
  {
    s == Dead || s == InHole
  }

  /** States that forbid voluntary movement. */
  predicate IsImmobile(s: ActorState)
  {
    s == Falling || s == Dead || s == InHole
  }

  /** `rules::resolve_state`: terminal states stay; otherwise ladder beats
      rope beats support, and an unsupported actor falls. */
  function ResolveState(m: MapView, x: nat, y: nat, current: ActorState): (s: ActorState)
    requires m.Valid()
    ensures IsSticky(current) ==> s == current
    ensures !IsSticky(current) ==> !IsSticky(s)
    ensures !IsSticky(current) ==>
      (s == OnLadder <==> TileAt(m, x, y) in {Ladder, HiddenLadder}) &&
      (s == OnRope <==> TileAt(m, x, y) == Rope) &&
      (s == Falling <==> !HasSupport(m, x, y))
  {
    if IsSticky(current) then current
    else
      var here := TileAt(m, x, y);
      if IsClimbable(here) then OnLadder
      else if IsHangable(here) then OnRope
      else if HasSupport(m, x, y) then OnGround
      else Falling
  }

  /** Resolution does not depend on the previous mobile state, and resolving
      twice changes nothing. */
  lemma ResolveStateIsIdempotent(m: MapView, x: nat, y: nat, current: ActorState, other: ActorState)
    requires m.Valid() && !IsSticky(current) && !IsSticky(other)
    ensures ResolveState(m, x, y, current) == ResolveState(m, x, y, other)
    ensures ResolveState(m, x, y, ResolveState(m, x, y, current)) == ResolveState(m, x, y, current)
  {
  }

  /** `rules::can_move_left`. */
  function CanMoveLeft(m: MapView, x: nat, y: nat, state: ActorState): (b: bool)
    requires m.Valid()
    ensures x == 0 || IsImmobile(state) ==> !b
    ensures x > 0 && !IsImmobile(state) ==> (b <==> IsPassableAt(m, x - 1, y))
  {
    if x == 0 then false
    else if IsImmobile(state) then false
    else IsPassableAt(m, x - 1, y)
  }

  /** `rules::can_move_right`. */
  function CanMoveRight(m: MapView, x: nat, y: nat, state: ActorState): (b: bool)
    requires m.Valid()
    ensures x + 1 >= m.width || IsImmobile(state) ==> !b
    ensures x + 1 < m.width && !IsImmobile(state) ==> (b <==> IsPassableAt(m, x + 1, y))
  {
    if x + 1 >= m.width then false
    else if IsImmobile(state) then false
    else IsPassableAt(m, x + 1, y)
  }

  /** `rules::can_move_up`: only from a ladder, into a passable cell. */
  function CanMoveUp(m: MapView, x: nat, y: nat, state: ActorState): (b: bool)
    requires m.Valid()
    ensures b <==>
      y > 0 && !IsImmobile(state) && TileAt(m, x, y) in {Ladder, HiddenLadder} && IsPassableAt(m, x, y - 1)
  {
    if y == 0 then false
    else if IsImmobile(state) then false
    else if !IsClimbable(TileAt(m, x, y)) then false
    else IsPassableAt(m, x, y - 1)
  }

  /** `rules::can_move_down`: descend a ladder, drop off a rope or step onto a
      ladder below. A falling actor is not excluded here. */
  function CanMoveDown(m: MapView, x: nat, y: nat, state: ActorState): (b: bool)
    requires m.Valid()
    ensures y + 1 >= m.height || IsSticky(state) ==> !b
    ensures y + 1 < m.height && !IsSticky(state) ==>
      (b <==>
        (TileAt(m, x, y) in {Ladder, HiddenLadder, Rope} && IsPassableAt(m, x, y + 1))
        || TileAt(m, x, y + 1) in {Ladder, HiddenLadder})
  {
    if y + 1 >= m.height then false
    else if IsSticky(state) then false
    else
      var here := TileAt(m, x, y);
      var below := TileAt(m, x, y + 1);
      if (IsClimbable(here) || IsHangable(here)) && IsPassable(below) then true
      else IsClimbable(below)
  }

  /** A step sideways can be retraced: whenever an actor may move right from
      a passable cell it may move left again from the cell it reached, and
      the other way round. */
  lemma HorizontalMovesAreReversible(m: MapView, x: nat, y: nat, state: ActorState)
    requires m.Valid() && IsPassableAt(m, x, y)
    ensures CanMoveRight(m, x, y, state) ==> CanMoveLeft(m, x + 1, y, state)
    ensures x > 0 && CanMoveLeft(m, x, y, state) ==> CanMoveRight(m, x - 1, y, state)
  {
  }

  /** Every climb up a ladder can be undone by a move down, and a move down
      onto a ladder can be undone by a climb. */
  lemma LadderMovesAreReversible(m: MapView, x: nat, y: nat, state: ActorState)
    requires m.Valid()
    ensures y > 0 && CanMoveUp(m, x, y, state) ==> CanMoveDown(m, x, y - 1, state)
    ensures CanMoveDown(m, x, y, state) && !IsImmobile(state) && IsPassableAt(m, x, y)
            && TileAt(m, x, y + 1) in {Ladder, HiddenLadder}
            ==> CanMoveUp(m, x, y + 1, state)
  {
  }

  /** `rules::can_dig`: the cell next to the actor on the `dir` side and one
      row down, provided the actor is mobile and supported (or on a ladder or
      rope), that side cell is open and not a ladder, and the target is a
      brick. */
  function CanDig(m: MapView, x: nat, y: nat, state: ActorState, dir: Facing): (r: Option<(nat, nat)>)
    requires m.Valid()
    ensures r.Some? <==>
      !IsImmobile(state)
      && (HasSupport(m, x, y) || state == OnLadder || state == OnRope)
      && (if dir == Left then x > 0 else x + 1 < m.width)
      && y + 1 < m.height
      && TileAt(m, if dir == Left then x - 1 else x + 1, y) in {Empty, Rope, Gold}
      && TileAt(m, if dir == Left then x - 1 else x + 1, y + 1) == Brick
    ensures r.Some? ==> r.value == (if dir == Left then x - 1 else x + 1, y + 1)
  {
    if IsImmobile(state) then None
    else if !HasSupport(m, x, y) && state != OnLadder && state != OnRope then None
    else if dir == Left && x == 0 then None
    else if dir == Right && x + 1 >= m.width then None
    else
      var sideX: nat := if dir == Left then x - 1 else x + 1;
      var digY := y + 1;
      if digY >= m.height then None
      else if !IsPassableAt(m, sideX, y) then None
      else if IsClimbable(TileAt(m, sideX, y)) then None
      else if IsDiggable(TileAt(m, sideX, digY)) then Some((sideX, digY))
      else None
  }

  /** A dig target is always an in-bounds brick diagonally below the actor,
      next to a passable cell, and never under a ladder or into concrete. */
  lemma DigTargetIsBrickBesideActor(m: MapView, x: nat, y: nat, state: ActorState, dir: Facing)
    requires m.Valid() && CanDig(m, x, y, state, dir).Some?
    ensures var (tx, ty) := CanDig(m, x, y, state, dir).value;
      tx < m.width && ty < m.height && ty == y + 1
      && (tx + 1 == x || tx == x + 1)
      && m.tiles[ty][tx] == Brick
      && IsPassableAt(m, tx, y) && !IsClimbable(m.tiles[y][tx])
  {
  }

  /** `rules::should_fall`. */
  function ShouldFall(m: MapView, x: nat, y: nat): (b: bool)
    requires m.Valid()
    ensures b <==> !HasSupport(m, x, y)
  {
    !HasSupport(m, x, y)
  }

  /** An actor falls exactly when its resolved state is Falling. */
  lemma FallingIffShouldFall(m: MapView, x: nat, y: nat, current: ActorState)
    requires m.Valid() && !IsSticky(current)
    ensures ResolveState(m, x, y, current) == Falling <==> ShouldFall(m, x, y)
    ensures ShouldFall(m, x, y) ==> y + 1 < m.height && IsPassableAt(m, x, y + 1)
  {
  }
}
