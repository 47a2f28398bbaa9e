/** Actors and timed map features: the player, guards, holes and digs in
    progress, with their small state machines. */
module Entity {

  datatype Facing = Left | Right

  /** The actor state machine shared by the player and the guards. */
  datatype ActorState = OnGround | Falling | OnLadder | OnRope | InHole | Dead

  datatype MoveDir = MoveLeft | MoveRight | MoveUp | MoveDown

  /** One frame of player intent: a held movement and a fresh dig press. */
  datatype FrameInput = FrameInput(movement: MoveDirOption, dig: FacingOption)

  datatype MoveDirOption = NoMove | Move(dir: MoveDir)
  datatype FacingOption = NoDig | Dig(side: Facing)

  datatype Player = Player(x: nat, y: nat, facing: Facing, state: ActorState, alive: bool, moveCooldown: nat)

  datatype Guard = Guard(
    id: nat, x: nat, y: nat, facing: Facing, state: ActorState,
    carryGold: bool,
    carryGoldTimer: nat,    // ticks since the gold was picked up
    stuckTimer: nat,        // ticks left before an escape attempt from a hole
    moveCooldown: nat,      // ticks until the next move
    spawnX: nat, spawnY: nat,
    respawnTimer: nat,      // ticks spent dead
    separationTimer: nat)   // > 0: the guard is in avoidance mode

  /** `Player::new`: alive, standing, facing right, ready to move. */
  function NewPlayer(x: nat, y: nat): (p: Player)
    ensures p.x == x && p.y == y
    ensures p.facing == Right && p.state == OnGround && p.alive && p.moveCooldown == 0
  {
    Player(x, y, Right, OnGround, true, 0)
  }

  /** `Guard::new`: spawn point is the start position, standing, facing left,
      empty-handed, every timer 0. */
  function NewGuard(id: nat, x: nat, y: nat): (g: Guard)
    ensures g.id == id && g.x == x && g.y == y && g.spawnX == x && g.spawnY == y
    ensures g.facing == Left && g.state == OnGround && !g.carryGold
    ensures g.carryGoldTimer == 0 && g.stuckTimer == 0 && g.moveCooldown == 0
    ensures g.respawnTimer == 0 && g.separationTimer == 0
  {
    Guard(id, x, y, Left, OnGround, false, 0, 0, 0, x, y, 0, 0)
  }

  /** A dug brick going through its two phases: fully open for
      `openRemaining` ticks, then refilling for `closeRemaining` ticks. */
  datatype Hole = Hole(x: nat, y: nat, openRemaining: nat, closeRemaining: nat)
  {
    /** Is the hole still passable? */
    predicate IsActive()
    {
      openRemaining > 0 || closeRemaining > 0
    }

    /** Is the hole in its refilling phase? */
    predicate IsClosing()
    {
      openRemaining == 0 && closeRemaining > 0
    }
  }

  /** A closing hole is always active. */
  lemma ClosingIsActive(h: Hole)
    requires h.IsClosing()
    ensures h.IsActive() && h.openRemaining == 0
  {
  }

  /** `Hole::tick`: one tick of the two-phase countdown. The result pairs the
      updated hole with the flag the source returns, "now inactive". Only one
      counter moves per tick, the open one first, and neither goes below 0. */
  function Tick(h: Hole): (r: (Hole, bool))
    ensures r.0.x == h.x && r.0.y == h.y
    ensures r.1 <==> !r.0.IsActive()
    ensures h.openRemaining > 0 ==>
      r.0.openRemaining + 1 == h.openRemaining && r.0.closeRemaining == h.closeRemaining
    ensures h.openRemaining == 0 && h.closeRemaining > 0 ==>
      r.0.openRemaining == 0 && r.0.closeRemaining + 1 == h.closeRemaining
    ensures !h.IsActive() ==> r.0 == h && r.1
  {
    var h' :=
      if h.openRemaining > 0 then h.(openRemaining := h.openRemaining - 1)
      else if h.closeRemaining > 0 then h.(closeRemaining := h.closeRemaining - 1)
      else h;
    (h', !h'.IsActive())
  }

  /** The hole after `n` ticks. */
  function TickN(h: Hole, n: nat): Hole
    decreases n
  {
    if n == 0 then h else TickN(Tick(h).0, n - 1)
  }

  /** Remaining lifetime of a hole, in ticks. */
  function Lifetime(h: Hole): nat
  {
    h.openRemaining + h.closeRemaining
  }

  /** Each tick of an active hole shortens its lifetime by exactly one. */
  lemma {:induction false} TickNCountsDown(h: Hole, n: nat)
    requires n <= Lifetime(h)
    ensures Lifetime(TickN(h, n)) == Lifetime(h) - n
    ensures TickN(h, n).x == h.x && TickN(h, n).y == h.y
    decreases n
  {
    if n > 0 {
      TickNCountsDown(Tick(h).0, n - 1);
    }
  }

  /** A hole created with `open + close > 0` reports expiry for the first
      time on exactly the `(open + close)`-th tick: every earlier tick returns
      false, that one returns true. */
  lemma {:induction false} ExpiresOnLastTick(h: Hole, k: nat)
    requires 1 <= k <= Lifetime(h)
    ensures Tick(TickN(h, k - 1)).1 <==> k == Lifetime(h)
  {
    TickNCountsDown(h, k - 1);
    var before := TickN(h, k - 1);
    assert Lifetime(before) == Lifetime(h) - (k - 1) >= 1;
  }

  /** An expired hole is left as it is by every further tick. */
  lemma {:induction false} ExpiredStaysExpired(h: Hole, n: nat)
    requires !h.IsActive()
    ensures TickN(h, n) == h
    decreases n
  {
    if n > 0 {
      ExpiredStaysExpired(Tick(h).0, n - 1);
    }
  }

  /** The unit-test lifecycle of `Hole::new(5, 3, 3, 2)`: three quiet ticks
      through the open phase, then closing with two ticks left, a fourth
      quiet tick and expiry on the fifth. */
  lemma OpenThreeCloseTwoLifecycle()
    ensures var h0 := Hole(5, 3, 3, 2);
      h0.IsActive() && !h0.IsClosing() &&
      !Tick(h0).1 && !Tick(TickN(h0, 1)).1 && !Tick(TickN(h0, 2)).1 &&
      TickN(h0, 3).IsClosing() && TickN(h0, 3).openRemaining == 0 && TickN(h0, 3).closeRemaining == 2 &&
      !Tick(TickN(h0, 3)).1 && Tick(TickN(h0, 4)).1 && !TickN(h0, 5).IsActive()
  {
    var h0 := Hole(5, 3, 3, 2);
    assert TickN(h0, 1) == Hole(5, 3, 2, 2);
    assert TickN(h0, 2) == Hole(5, 3, 1, 2);
    assert TickN(h0, 3) == Hole(5, 3, 0, 2);
    assert TickN(h0, 4) == Hole(5, 3, 0, 1);
    assert TickN(h0, 5) == Hole(5, 3, 0, 0);
  }

  /** A brick being dug; while it exists the tile is still Brick. */
  datatype DigInProgress = DigInProgress(x: nat, y: nat, ticksRemaining: nat, totalTicks: nat)

  /** `DigInProgress::new`: a fresh dig has its whole duration ahead. */
  function NewDig(x: nat, y: nat, duration: nat): (d: DigInProgress)
    ensures d.x == x && d.y == y && d.ticksRemaining == duration && TotalTicks(d) == duration
  {
    DigInProgress(x, y, duration, duration)
  }

  /** `DigInProgress::new_with_state`: both counters stored verbatim. */
  function NewDigWithState(x: nat, y: nat, remaining: nat, total: nat): (d: DigInProgress)
    ensures d.x == x && d.y == y && d.ticksRemaining == remaining && TotalTicks(d) == total
  {
    DigInProgress(x, y, remaining, total)
  }

  /** `DigInProgress::total_ticks`. */
  function TotalTicks(d: DigInProgress): nat
  {
    d.totalTicks
  }
}
