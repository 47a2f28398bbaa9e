/** Player movement for one tick: the tile-only legality rules of `Rules`
    decide whether a key press moves the player one cell; guards count as
    floor only when the tile rules would make the player fall. */
module Movement {
  import opened Common
  import opened Tiles
  import opened Entity
  import opened World
  import opened StepBase
  import Rules
  import Physics

  /** The unit step of a direction key as (dx, dy); y grows downward. */
  function Delta(d: MoveDir): (int, int)
  {
    match d
    case MoveLeft => (-1, 0)
    case MoveRight => (1, 0)
    case MoveUp => (0, -1)
    case MoveDown => (0, 1)
  }

  /** The tile rule that decides whether a step in direction `d` is legal. */
  function CanMoveDir(m: Rules.MapView, x: nat, y: nat, s: ActorState, d: MoveDir): bool
    requires m.Valid()
  {
    match d
    case MoveLeft => Rules.CanMoveLeft(m, x, y, s)
    case MoveRight => Rules.CanMoveRight(m, x, y, s)
    case MoveUp => Rules.CanMoveUp(m, x, y, s)
    case MoveDown => Rules.CanMoveDown(m, x, y, s)
  }

  /** A legal step lands on a passable cell of the map. */
  lemma LegalStepLandsOnMap(m: Rules.MapView, x: nat, y: nat, s: ActorState, d: MoveDir)
    requires m.Valid() && CanMoveDir(m, x, y, s, d)
    ensures 0 <= x + Delta(d).0 && 0 <= y + Delta(d).1
    ensures Rules.IsPassableAt(m, x + Delta(d).0, y + Delta(d).1)
  {
  }

  /** The player's state after arriving at (x, y): the tile rules decide,
      except that a standing guard underneath turns a fall into standing. */
  function ArrivalState(f: WorldFields, x: nat, y: nat, current: ActorState): (s: ActorState)
    requires Shaped(f)
    ensures s == Falling ==> !Physics.HasSupportForPlayer(MapOf(f), f.holeGrid, f.guards, x, y)
    ensures !Rules.IsSticky(current) && s != OnGround ==> s == Rules.ResolveState(MapOf(f), x, y, current)
    ensures Rules.IsSticky(current) ==> s == current
  {
    var s := Rules.ResolveState(MapOf(f), x, y, current);
    if s == Falling && Physics.HasSupportForPlayer(MapOf(f), f.holeGrid, f.guards, x, y) then OnGround else s
  }

  /** The world after `resolve_player_movement`. Only the player changes. A
      dead, falling or buried player does nothing; a player on cooldown
      only counts it down; otherwise a pressed key that the tile rules allow
      moves the player exactly one cell in that direction onto a passable
      cell, turns it toward a horizontal step and restarts its cooldown. */
  function PlayerMoved(f: WorldFields, movement: MoveDirOption): (r: WorldFields)
    requires Shaped(f)
    ensures r == f.(player := r.player)
    ensures !f.player.alive || f.player.state == Falling || PlayerInClosingHole(f) ==> r == f
    ensures f.player.alive && f.player.state != Falling && !PlayerInClosingHole(f) && f.player.moveCooldown > 0 ==>
      r.player == f.player.(moveCooldown := f.player.moveCooldown - 1)
    ensures r.player.alive == f.player.alive
    ensures (r.player.x, r.player.y) != (f.player.x, f.player.y) ==>
      f.player.moveCooldown == 0 && movement.Move?
      && CanMoveDir(MapOf(f), f.player.x, f.player.y, f.player.state, movement.dir)
      && r.player.x == f.player.x + Delta(movement.dir).0
      && r.player.y == f.player.y + Delta(movement.dir).1
      && Rules.IsPassableAt(MapOf(f), r.player.x, r.player.y)
      && r.player.moveCooldown == f.speed.playerMoveRate
    ensures movement.Move? && f.player.alive && f.player.state != Falling && !PlayerInClosingHole(f)
            && f.player.moveCooldown == 0 && CanMoveDir(MapOf(f), f.player.x, f.player.y, f.player.state, movement.dir) ==>
      (r.player.x, r.player.y) != (f.player.x, f.player.y)
      && r.player.state == ArrivalState(f, r.player.x, r.player.y, f.player.state)
  {
    var p := f.player;
    if !p.alive || p.state == Falling || PlayerInClosingHole(f) then f
    else if p.moveCooldown > 0 then f.(player := p.(moveCooldown := p.moveCooldown - 1))
    else match movement
      case NoMove => f
      case Move(d) =>
        if !CanMoveDir(MapOf(f), p.x, p.y, p.state, d) then f
        else Stepped(f, d)
  }

  /** The world after the player takes a legal step in direction `d`. */
  function Stepped(f: WorldFields, d: MoveDir): (r: WorldFields)
    requires Shaped(f) && CanMoveDir(MapOf(f), f.player.x, f.player.y, f.player.state, d)
    ensures r == f.(player := r.player) && r.player.alive == f.player.alive
    ensures r.player.x == f.player.x + Delta(d).0 && r.player.y == f.player.y + Delta(d).1
    ensures (r.player.x, r.player.y) != (f.player.x, f.player.y)
    ensures Rules.IsPassableAt(MapOf(f), r.player.x, r.player.y)
    ensures r.player.moveCooldown == f.speed.playerMoveRate
    ensures r.player.state == ArrivalState(f, r.player.x, r.player.y, f.player.state)
  {
    var p := f.player;
    LegalStepLandsOnMap(MapOf(f), p.x, p.y, p.state, d);
    var nx: nat := p.x + Delta(d).0;
    var ny: nat := p.y + Delta(d).1;
    f.(player := p.(x := nx, y := ny, facing := Turned(p.facing, Delta(d).0),
                    moveCooldown := f.speed.playerMoveRate,
                    state := ArrivalState(f, nx, ny, p.state)))
  }

  /** `resolve_player_movement`, in place. */
  method ResolvePlayerMovement(w: WorldState, movement: MoveDirOption)
    requires Shaped(w.Fields())
    modifies w
    ensures w.Fields() == PlayerMoved(old(w.Fields()), movement)
  {
    if !w.player.alive || w.player.state == Falling {
      return;
    }
    if PlayerInClosingHole(w.Fields()) {
      return;
    }
    if w.player.moveCooldown > 0 {
      w.player := w.player.(moveCooldown := w.player.moveCooldown - 1);
      return;
    }
    if movement.NoMove? {
      return;
    }
    var canMove := CanMoveDir(w.Map(), w.player.x, w.player.y, w.player.state, movement.dir);
    if canMove {
      TakeStep(w, movement.dir);
    }
  }

  /** The body of a legal step, in place. */
  method TakeStep(w: WorldState, d: MoveDir)
    requires Shaped(w.Fields()) && CanMoveDir(w.Map(), w.player.x, w.player.y, w.player.state, d)
    modifies w
    ensures w.Fields() == Stepped(old(w.Fields()), d)
  {
    ghost var f := w.Fields();
    var m := w.Map();
    var p := w.player;
    var (dx, dy) := Delta(d);
    LegalStepLandsOnMap(m, p.x, p.y, p.state, d);
    var nx: nat := p.x + dx;
    var ny: nat := p.y + dy;
    p := p.(x := nx, y := ny, facing := Turned(p.facing, dx), moveCooldown := w.speed.playerMoveRate);
    p := p.(state := Rules.ResolveState(m, nx, ny, p.state));
    if p.state == Falling && Physics.HasSupportForPlayer(m, w.holeGrid, w.guards, nx, ny) {
      p := p.(state := OnGround);
    }
    assert p == Stepped(f, d).player;
    w.player := p;
  }

  /** Moving the player leaves the world invariant intact. */
  lemma PlayerMovedKeepsInv(f: WorldFields, movement: MoveDirOption)
    requires Inv(f)
    ensures Inv(PlayerMoved(f, movement))
  {
  }
}
