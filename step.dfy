/** `step`: one tick of play, running every pass in the game's order, with
    the collision and win checks that end it, and `restart_level`. */
module Step {
  import opened Common
  import opened Tiles
  import opened Entity
  import opened World
  import opened StepBase
  import Physics
  import Ai
  import Dig
  import Movement
  import GuardMove
  import Gravity
  import Pickup
  import Timers

  // ---------------------------------------------------------------------
  // resolve_enemy_collision
  // ---------------------------------------------------------------------

  /** An active guard kills a player at (px, py) from the player's own cell
      or from the cell directly above; a guard below is harmless. */
  predicate Kills(g: Guard, px: nat, py: nat)
  {
    IsActive(g) && g.x == px && (g.y == py || g.y + 1 == py)
  }

  /** Some guard kills the living player. */
  predicate PlayerCaught(f: WorldFields)
  {
    f.player.alive && exists j :: 0 <= j < |f.guards| && Kills(f.guards[j], f.player.x, f.player.y)
  }

  /** `resolve_enemy_collision`: the player dies, with one `PlayerKilled`
      event, exactly when some guard kills it; otherwise nothing changes.
      `killed` tells the tick to stop. */
  method ResolveEnemyCollision(w: WorldState) returns (killed: bool, events: seq<GameEvent>)
    modifies w
    ensures killed == PlayerCaught(old(w.Fields()))
    ensures killed ==> w.Fields() == Died(old(w.Fields())) && events == [PlayerKilled]
    ensures !killed ==> w.Fields() == old(w.Fields()) && events == []
  {
    killed, events := false, [];
    if !w.player.alive {
      return;
    }
    var px, py := w.player.x, w.player.y;
    for j := 0 to |w.guards|
      invariant w.Fields() == old(w.Fields())
      invariant forall k :: 0 <= k < j ==> !Kills(w.guards[k], px, py)
    {
      var g := w.guards[j];
      if g.state == Dead || g.state == InHole {
        continue;
      }
      if g.x == px && g.y == py {
        events := [PlayerKilled];
        PlayerDie(w);
        return true, events;
      }
      if py > 0 && g.x == px && g.y == py - 1 {
        events := [PlayerKilled];
        PlayerDie(w);
        return true, events;
      }
    }
  }

  /** Standing on a guard's head is safe: a guard one row below the player
      never kills it, and a player that is caught is caught by a guard on its
      cell or just above. */
  lemma {:induction false} CaughtFromAboveOrLevel(f: WorldFields)
    requires PlayerCaught(f)
    ensures exists j :: (0 <= j < |f.guards| && IsActive(f.guards[j]) && f.guards[j].x == f.player.x
                        && f.player.y - 1 <= f.guards[j].y <= f.player.y)
  {
    var j :| 0 <= j < |f.guards| && Kills(f.guards[j], f.player.x, f.player.y);
    assert f.player.y - 1 <= f.guards[j].y <= f.player.y;
  }

  // ---------------------------------------------------------------------
  // resolve_win
  // ---------------------------------------------------------------------

  /** The world and events after `resolve_win`: a living player on the top
      row with the exit open clears the stage for 500 points and the level
      moves to its outro; otherwise nothing changes. */
  function Won(f: WorldFields): (r: (WorldFields, seq<GameEvent>))
    ensures r.0 == f.(phase := r.0.phase, score := r.0.score)
    ensures r.1 == [StageCleared] <==> f.player.alive && f.exitEnabled && f.player.y == 0
    ensures r.1 == [StageCleared] ==> r.0.phase == LevelOutro && r.0.score == f.score + 500
    ensures r.1 != [StageCleared] ==> r == (f, [])
  {
    if !f.player.alive then (f, [])
    else if f.exitEnabled && f.player.y == 0 then (f.(phase := LevelOutro, score := f.score + 500), [StageCleared])
    else (f, [])
  }

  /** `resolve_win`, in place. */
  method ResolveWin(w: WorldState) returns (events: seq<GameEvent>)
    modifies w
    ensures (w.Fields(), events) == Won(old(w.Fields()))
  {
    events := [];
    if !w.player.alive {
      return;
    }
    if w.exitEnabled && w.player.y == 0 {
      w.phase := LevelOutro;
      w.score := w.score + 500;
      events := [StageCleared];
    }
  }

  // ---------------------------------------------------------------------
  // restart_level
  // ---------------------------------------------------------------------

  /** A guard sent back to its spawn: standing, empty-handed, with all its
      timers cleared and a full move cooldown. Its id and facing stay. */
  function Respawn(g: Guard, rate: nat): (h: Guard)
  {
    g.(x := g.spawnX, y := g.spawnY, state := OnGround, carryGold := false, carryGoldTimer := 0,
       stuckTimer := 0, moveCooldown := rate, respawnTimer := 0, separationTimer := 0)
  }

  function RespawnedAll(gs: seq<Guard>, rate: nat): (r: seq<Guard>)
    ensures |r| == |gs|
  {
    seq(|gs|, i requires 0 <= i < |gs| => Respawn(gs[i], rate))
  }

  /** The map and the gold after `restart_level`: the tiles as loaded, no
      holes or digs, the exit closed, and both gold counts set to the gold
      on the reset map. */
  ghost function BoardReset(f: WorldFields): (r: WorldFields)
  {
    var n := GoldCount(f.baseTiles);
    f.(tiles := f.baseTiles, holes := [], digs := [], holeGrid := Timers.HoleGridOf([], f.width, f.height),
       exitEnabled := false, goldRemaining := n, goldTotal := n)
  }

  /** The world after `restart_level`: the board reset, the player alive and
      standing at its spawn, and every guard respawned. Score, lives, phase,
      tick and the level itself are kept. */
  ghost function Restarted(f: WorldFields): (r: WorldFields)
  {
    var b := BoardReset(f);
    b.(player := f.player.(x := f.playerSpawn.0, y := f.playerSpawn.1, alive := true, state := OnGround, moveCooldown := 0),
       guards := RespawnedAll(f.guards, f.speed.guardMoveRate))
  }

  lemma {:induction false} RespawnedCarryNothing(gs: seq<Guard>, rate: nat)
    ensures Carriers(RespawnedAll(gs, rate)) == 0
    decreases |gs|
  {
    if |gs| > 0 {
      var k := |gs| - 1;
      assert RespawnedAll(gs, rate)[..k] == RespawnedAll(gs[..k], rate);
      RespawnedCarryNothing(gs[..k], rate);
    }
  }

  /** A restart starts a fresh round of the same level: the world invariant
      holds, every gold on the reset map is still to be collected and no
      guard carries any, and there are no holes or digs. */
  lemma RestartedKeepsInv(f: WorldFields)
    requires Inv(f)
    ensures var r := Restarted(f);
      Inv(r) && r.goldRemaining == r.goldTotal == GoldCount(r.tiles) && Carriers(r.guards) == 0
      && r.holes == [] && r.digs == [] && !r.exitEnabled
      && |r.guards| == |f.guards| && r.baseTiles == f.baseTiles
  {
    var r := Restarted(f);
    RespawnedCarryNothing(f.guards, f.speed.guardMoveRate);
    assert GuardsOnMap(r.width, r.height, r.guards) by {
      forall i | 0 <= i < |r.guards|
        ensures GuardOnMap(r.width, r.height, r.guards[i])
      {
        assert GuardOnMap(f.width, f.height, f.guards[i]);
      }
    }
  }

  /** Restarting twice is restarting once. */
  lemma RestartIsIdempotent(f: WorldFields)
    ensures Restarted(Restarted(f)) == Restarted(f)
  {
    var r := Restarted(f);
    assert RespawnedAll(r.guards, f.speed.guardMoveRate) == r.guards;
  }

  lemma RowGoldStep(row: seq<Tile>, i: nat)
    requires i < |row|
    ensures RowGold(row[..i + 1]) == RowGold(row[..i]) + (if row[i] == Gold then 1 else 0)
  {
    assert row[..i + 1][..i] == row[..i];
  }

  lemma GoldCountStep(rows: seq<seq<Tile>>, i: nat)
    requires i < |rows|
    ensures GoldCount(rows[..i + 1]) == GoldCount(rows[..i]) + RowGold(rows[i])
  {
    assert rows[..i + 1][..i] == rows[..i];
  }

  /** Counts the Gold cells of `rows`, one cell at a time. */
  method CountGold(rows: seq<seq<Tile>>) returns (n: nat)
    ensures n == GoldCount(rows)
  {
    n := 0;
    for y := 0 to |rows|
      invariant n == GoldCount(rows[..y])
    {
      var row := rows[y];
      ghost var before := n;
      for x := 0 to |row|
        invariant n == before + RowGold(row[..x])
      {
        RowGoldStep(row, x);
        if row[x] == Gold {
          n := n + 1;
        }
      }
      assert row[..|row|] == row;
      GoldCountStep(rows, y);
    }
    assert rows[..|rows|] == rows;
  }

  /** Sends every guard back to its spawn. */
  method RespawnGuards(gs: seq<Guard>, rate: nat) returns (r: seq<Guard>)
    ensures r == RespawnedAll(gs, rate)
  {
    r := gs;
    for i := 0 to |gs|
      invariant |r| == |gs|
      invariant forall k :: 0 <= k < i ==> r[k] == Respawn(gs[k], rate)
      invariant forall k :: i <= k < |gs| ==> r[k] == gs[k]
    {
      var g := r[i];
      r := r[i := g.(x := g.spawnX, y := g.spawnY, state := OnGround, carryGold := false, carryGoldTimer := 0,
                     stuckTimer := 0, moveCooldown := rate, respawnTimer := 0, separationTimer := 0)];
    }
  }

  /** `restart_level`, in place. */
  method RestartLevel(w: WorldState)
    modifies w
    ensures w.Fields() == Restarted(old(w.Fields()))
  {
    ResetBoard(w);
    w.player := w.player.(x := w.playerSpawn.0, y := w.playerSpawn.1, alive := true, state := OnGround, moveCooldown := 0);
    var gs := RespawnGuards(w.guards, w.speed.guardMoveRate);
    w.guards := gs;
  }

  /** The board part of `restart_level`, in place. */
  method ResetBoard(w: WorldState)
    modifies w
    ensures w.Fields() == BoardReset(old(w.Fields()))
  {
    w.ResetTiles();
    w.holes, w.digs := [], [];
    w.RebuildHoleGrid();
    Timers.HoleGridIsUnique(w.holeGrid, [], w.width, w.height);
    w.exitEnabled := false;
    var n := CountGold(w.tiles);
    w.goldRemaining, w.goldTotal := n, n;
  }

  // ---------------------------------------------------------------------
  // step
  // ---------------------------------------------------------------------

  /** The opening of a tick: the tick counter advances, the requested dig
      starts, finished digs open, and the hole grid is rebuilt from the
      holes. */
  ghost function Opened(f: WorldFields, dig: FacingOption): (r: (WorldFields, seq<GameEvent>))
    requires Inv(f)
    ensures Inv(r.0)
  {
    var t := f.(tick := f.tick + 1);
    var d := Dig.DigResolved(t, dig);
    Dig.DigResolvedKeepsInv(t, dig);
    var p := Dig.DigsProgressed(d.0);
    Dig.DigsProgressedKeepsInv(d.0);
    (p.(holeGrid := Timers.HoleGridOf(p.holes, p.width, p.height)), d.1)
  }

  /** The front of a tick: the opening, then the player's move. */
  ghost function Prepared(f: WorldFields, input: FrameInput): (r: (WorldFields, seq<GameEvent>))
    requires Inv(f)
    ensures Inv(r.0)
  {
    var o := Opened(f, input.dig);
    Movement.PlayerMovedKeepsInv(o.0, input.movement);
    (Movement.PlayerMoved(o.0, input.movement), o.1)
  }

  /** The middle of a tick, after the guards moved: trap bricks under
      standing actors collapse, actors fall, and guards drop into holes. */
  function Settled(f: WorldFields): (r: (WorldFields, seq<GameEvent>))
    requires Inv(f)
    ensures Inv(r.0)
  {
    var c := Gravity.Collapsed(f.tiles, f.width, f.height, Gravity.TrapPositions(f));
    var f1 := f.(tiles := c.0);
    Gravity.CollapsedKeepsInv(f, Gravity.TrapPositions(f));
    var g := Gravity.Gravity(f1);
    Gravity.GravityKeepsInv(f1);
    var h := Gravity.CaughtUpTo(g.0, |g.0.guards|);
    Gravity.CaughtUpToKeepsInv(g.0, |g.0.guards|);
    (h.0, c.1 + g.1 + h.1)
  }

  /** Gold changes hands: the player and guards pick gold up, then guards
      that carried theirs long enough put it down. */
  function GoldMoved(f: WorldFields): (r: (WorldFields, seq<GameEvent>))
    requires Inv(f)
    ensures Inv(r.0)
  {
    var p := Pickup.GoldPickup(f);
    Pickup.GoldPickupAccounts(f);
    var d := Pickup.GoldDropped(p.0);
    GoldDroppedKeepsInv(p.0);
    (d.0, p.1 + d.1)
  }

  lemma GoldDroppedKeepsInv(f: WorldFields)
    requires Inv(f)
    ensures Inv(Pickup.GoldDropped(f).0)
  {
    if f.speed.goldCarryTicks != 0 {
      Pickup.DroppedUpToKeepsInv(f, |f.guards|);
    }
  }

  /** The end of a tick: a caught player dies and nothing else happens;
      otherwise the hole and guard timers run and the win check follows. */
  ghost function Finished(f: WorldFields): (r: (WorldFields, seq<GameEvent>))
    requires Inv(f)
    ensures Inv(r.0)
  {
    if PlayerCaught(f) then
      DiedKeepsInv(f);
      (Died(f), [PlayerKilled])
    else
      var t := Timers.Timed(f);
      Timers.TimedKeepsInv(f);
      var v := Won(t.0);
      (v.0, t.1 + v.1)
  }

  /** The world and events after one call of `step` with the player's
      `input`, when the guards' AI picks the steps `choices`: outside the
      Playing phase nothing happens; otherwise the passes run in order. */
  ghost function Stepped(f: WorldFields, input: FrameInput, choices: seq<(int, int)>): (r: (WorldFields, seq<GameEvent>))
    requires Inv(f) && (f.phase == Playing ==> |choices| == |f.guards|)
  {
    if f.phase != Playing then (f, [])
    else
      var a := Prepared(f, input);
      var m := GuardMove.GuardsMoved(a.0, choices);
      GuardMove.GuardsMovedKeepsInv(a.0, choices);
      var s := Settled(m);
      var g := GoldMoved(s.0);
      var e := Finished(g.0);
      (e.0, a.1 + s.1 + g.1 + e.1)
  }

  /** `step`, in place. Returns the events of the tick and the steps the
      guards' AI chose: each is an answer the AI may give for its guard in
      the world as the guard-movement pass finds it. */
  method Step(w: WorldState, input: FrameInput) returns (events: seq<GameEvent>, choices: seq<(int, int)>)
    requires w.Valid()
    modifies w
    ensures w.Valid()
    ensures old(w.phase) == Playing ==>
      (|choices| == |old(w.guards)| && forall i :: 0 <= i < |choices| ==> choices[i] == (0, 0) || choices[i] in Ai.DIRS)
    ensures old(w.phase) == Playing ==> GuardMove.PassChoices(Prepared(old(w.Fields()), input).0, choices)
    ensures (w.Fields(), events) == Stepped(old(w.Fields()), input, choices)
  {
    choices := [];
    if w.phase != Playing {
      return [], choices;
    }
    ghost var f := w.Fields();
    var front := PrepareTick(w, input);
    ghost var a := w.Fields();
    choices := GuardMove.ResolveGuardMovement(w);
    GuardMove.GuardsMovedKeepsInv(a, choices);
    var settled := SettleWorld(w);
    var gold := MoveGold(w);
    var last := FinishTick(w);
    events := front + settled + gold + last;
  }

  /** The front of a tick, in place. */
  method PrepareTick(w: WorldState, input: FrameInput) returns (events: seq<GameEvent>)
    requires w.Valid()
    modifies w
    ensures w.Valid()
    ensures (w.Fields(), events) == Prepared(old(w.Fields()), input)
  {
    events := OpenTick(w, input.dig);
    Movement.ResolvePlayerMovement(w, input.movement);
  }

  /** The opening of a tick, in place. */
  method OpenTick(w: WorldState, dig: FacingOption) returns (events: seq<GameEvent>)
    requires w.Valid()
    modifies w
    ensures w.Valid()
    ensures (w.Fields(), events) == Opened(old(w.Fields()), dig)
  {
    ghost var f := w.Fields();
    AdvanceTick(w);
    ghost var t := w.Fields();
    events := Dig.ResolveDig(w, dig);
    ghost var d := w.Fields();
    OpenHoles(w);
    assert Opened(f, dig) == (w.Fields(), events);
  }

  /** The tick counter grows by one. */
  method AdvanceTick(w: WorldState)
    requires w.Valid()
    modifies w
    ensures w.Valid()
    ensures w.Fields() == old(w.Fields()).(tick := old(w.tick) + 1)
  {
    w.tick := w.tick + 1;
  }

  /** Finished digs open and the hole grid is rebuilt, in place. */
  method OpenHoles(w: WorldState)
    requires w.Valid()
    modifies w
    ensures w.Valid()
    ensures var p := Dig.DigsProgressed(old(w.Fields()));
      w.Fields() == p.(holeGrid := Timers.HoleGridOf(p.holes, p.width, p.height))
  {
    Dig.ResolveDigProgress(w);
    w.RebuildHoleGrid();
    Timers.HoleGridIsUnique(w.holeGrid, w.holes, w.width, w.height);
  }

  /** The end of a tick, in place. */
  method FinishTick(w: WorldState) returns (events: seq<GameEvent>)
    requires w.Valid()
    modifies w
    ensures w.Valid()
    ensures (w.Fields(), events) == Finished(old(w.Fields()))
  {
    var killed, hit := ResolveEnemyCollision(w);
    if killed {
      DiedKeepsInv(old(w.Fields()));
      return hit;
    }
    ghost var f := w.Fields();
    var timed := Timers.ResolveTimers(w);
    Timers.TimedKeepsInv(f);
    var won := ResolveWin(w);
    events := timed + won;
  }

  /** Trap bricks, gravity and hole traps, in place. */
  method SettleWorld(w: WorldState) returns (events: seq<GameEvent>)
    requires w.Valid()
    modifies w
    ensures w.Valid()
    ensures (w.Fields(), events) == Settled(old(w.Fields()))
  {
    var collapsed := Gravity.ResolveTrapBricks(w);
    var fell := Gravity.ResolveGravity(w);
    var caught := Gravity.ResolveHoleTraps(w);
    events := collapsed + fell + caught;
  }

  /** Gold pickup and guard gold drop, in place. */
  method MoveGold(w: WorldState) returns (events: seq<GameEvent>)
    requires w.Valid()
    modifies w
    ensures w.Valid()
    ensures (w.Fields(), events) == GoldMoved(old(w.Fields()))
  {
    var picked := Pickup.ResolveGoldPickup(w);
    var dropped := Pickup.ResolveGuardGoldDrop(w);
    events := picked + dropped;
  }

  // ---------------------------------------------------------------------
  // What a tick keeps
  // ---------------------------------------------------------------------

  /** `r` is still the level `f` was: same size, same map as loaded, same
      guards (by count), same speeds and gold total; the gold left to
      collect may only have gone down. */
  ghost predicate LevelKept(f: WorldFields, r: WorldFields)
  {
    r.width == f.width && r.height == f.height && r.baseTiles == f.baseTiles
    && |r.guards| == |f.guards| && r.speed == f.speed
    && r.goldTotal == f.goldTotal && r.goldRemaining <= f.goldRemaining
  }

  lemma PreparedKeepsLevel(f: WorldFields, input: FrameInput)
    requires Inv(f)
    ensures LevelKept(f, Prepared(f, input).0)
    ensures Prepared(f, input).0.tick == f.tick + 1
  {
  }

  lemma SettledKeepsLevel(f: WorldFields)
    requires Inv(f)
    ensures LevelKept(f, Settled(f).0) && Settled(f).0.tick == f.tick
  {
  }

  lemma GoldMovedKeepsLevel(f: WorldFields)
    requires Inv(f)
    ensures LevelKept(f, GoldMoved(f).0) && GoldMoved(f).0.tick == f.tick
  {
    Pickup.GoldPickupAccounts(f);
  }

  lemma FinishedKeepsLevel(f: WorldFields)
    requires Inv(f)
    ensures LevelKept(f, Finished(f).0) && Finished(f).0.tick == f.tick
  {
  }

  /** A tick keeps the world invariant and plays on the same level: the map
      as loaded, its size, the guards, the speeds and the gold total stay,
      and the gold left to collect never grows. Outside the Playing phase a
      tick changes nothing and reports nothing; in it the tick counter
      grows by exactly one. */
  lemma StepKeepsLevel(f: WorldFields, input: FrameInput, choices: seq<(int, int)>)
    requires Inv(f) && (f.phase == Playing ==> |choices| == |f.guards|)
    ensures Inv(Stepped(f, input, choices).0)
    ensures LevelKept(f, Stepped(f, input, choices).0)
    ensures f.phase != Playing ==> Stepped(f, input, choices) == (f, [])
    ensures f.phase == Playing ==> Stepped(f, input, choices).0.tick == f.tick + 1
  {
    if f.phase == Playing {
      var a := Prepared(f, input);
      PreparedKeepsLevel(f, input);
      var m := GuardMove.GuardsMoved(a.0, choices);
      GuardMove.GuardsMovedKeepsInv(a.0, choices);
      var s := Settled(m);
      SettledKeepsLevel(m);
      var g := GoldMoved(s.0);
      GoldMovedKeepsLevel(s.0);
      FinishedKeepsLevel(g.0);
    }
  }
}
