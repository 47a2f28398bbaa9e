/** Gold changing hands: the player and the guards picking gold up, and
    guards dropping the gold they have carried for too long. Gold on the map
    plus gold carried by guards only ever decreases, and exactly by the gold
    the player collects. */
module Pickup {
  import opened Common
  import opened Tiles
  import opened Entity
  import opened World
  import opened StepBase
  import opened Exit
  import Rules

  /** Gold in play: lying on the map or carried by a guard. */
  function GoldInPlay(f: WorldFields): nat
  {
    GoldCount(f.tiles) + Carriers(f.guards)
  }

  // ---------------------------------------------------------------------
  // resolve_gold_pickup
  // ---------------------------------------------------------------------

  /** The player's part of `resolve_gold_pickup`. Standing on gold, the
      player takes it: one gold less remains, the score grows by 100, the
      pickup is reported, and taking the last gold also reports it and
      enables the exit. Otherwise nothing happens. The invariant guarantees
      that gold on the map is still counted as remaining, so the count never
      goes below zero. */
  function PlayerPickedUp(f: WorldFields): (r: (WorldFields, seq<GameEvent>))
    requires Inv(f)
    ensures Shaped(r.0)
    ensures r.0 == f.(tiles := r.0.tiles, goldRemaining := r.0.goldRemaining, score := r.0.score, exitEnabled := r.0.exitEnabled)
    ensures Rules.TileAt(MapOf(f), f.player.x, f.player.y) != Gold ==> r == (f, [])
    ensures Rules.TileAt(MapOf(f), f.player.x, f.player.y) == Gold ==>
      r.0.goldRemaining + 1 == f.goldRemaining && r.0.score == f.score + 100
      && OnlyLadders(SetCell(f.tiles, f.player.x, f.player.y, Empty), r.0.tiles, f.width, f.height)
      && r.0.exitEnabled == (f.exitEnabled || r.0.goldRemaining == 0)
      && r.1 == [GoldPicked(f.player.x, f.player.y)] + (if r.0.goldRemaining == 0 then [AllGoldCollected] else [])
  {
    if Rules.TileAt(MapOf(f), f.player.x, f.player.y) == Gold then Collected(f) else (f, [])
  }

  /** The player takes the gold it stands on. */
  function Collected(f: WorldFields): (r: (WorldFields, seq<GameEvent>))
    requires Inv(f) && Rules.TileAt(MapOf(f), f.player.x, f.player.y) == Gold
    ensures Shaped(r.0)
    ensures r.0 == f.(tiles := r.0.tiles, goldRemaining := r.0.goldRemaining, score := r.0.score, exitEnabled := r.0.exitEnabled)
    ensures r.0.goldRemaining + 1 == f.goldRemaining && r.0.score == f.score + 100
    ensures OnlyLadders(SetCell(f.tiles, f.player.x, f.player.y, Empty), r.0.tiles, f.width, f.height)
    ensures r.0.exitEnabled == (f.exitEnabled || r.0.goldRemaining == 0)
    ensures r.1 == [GoldPicked(f.player.x, f.player.y)] + (if r.0.goldRemaining == 0 then [AllGoldCollected] else [])
  {
    var px, py := f.player.x, f.player.y;
    GoldCellIsCounted(f.tiles, px, py);
    var f1 := f.(tiles := SetCell(f.tiles, px, py, Empty), goldRemaining := f.goldRemaining - 1, score := f.score + 100);
    if f1.goldRemaining == 0 then (ExitOpened(f1), [GoldPicked(px, py), AllGoldCollected])
    else (f1, [GoldPicked(px, py)])
  }

  /** The player's pickup keeps the invariant and removes from play exactly
      the gold it takes off the remaining count. */
  lemma PlayerPickedUpAccounts(f: WorldFields)
    requires Inv(f)
    ensures Inv(PlayerPickedUp(f).0)
    ensures GoldInPlay(PlayerPickedUp(f).0) + f.goldRemaining == GoldInPlay(f) + PlayerPickedUp(f).0.goldRemaining
  {
    var px, py := f.player.x, f.player.y;
    if Rules.TileAt(MapOf(f), px, py) == Gold {
      TakenGoldKeepsInv(f);
      var f1 := f.(tiles := SetCell(f.tiles, px, py, Empty), goldRemaining := f.goldRemaining - 1, score := f.score + 100);
      var r := PlayerPickedUp(f).0;
      if f1.goldRemaining == 0 {
        ExitOpenedKeepsInv(f1);
        assert r == ExitOpened(f1);
      } else {
        assert r == f1;
      }
    }
  }

  /** Taking the gold under the player, before the exit opens, keeps the
      invariant and takes one gold out of play and off the count. */
  lemma TakenGoldKeepsInv(f: WorldFields)
    requires Inv(f) && Rules.TileAt(MapOf(f), f.player.x, f.player.y) == Gold
    ensures f.goldRemaining >= 1
    ensures var f1 := f.(tiles := SetCell(f.tiles, f.player.x, f.player.y, Empty),
                         goldRemaining := f.goldRemaining - 1, score := f.score + 100);
      Inv(f1) && GoldInPlay(f1) + 1 == GoldInPlay(f)
  {
    GoldCellIsCounted(f.tiles, f.player.x, f.player.y);
    GoldCountSetCell(f.tiles, f.player.x, f.player.y, Empty);
  }

  /** The pickup step of guard `i`: an active guard with empty hands
      standing on gold takes it, with a fresh carry timer. The guard does not
      move and no other guard changes; the gold only changes hands. */
  function GuardPickedUp(f: WorldFields, i: nat): (r: WorldFields)
    requires Shaped(f) && i < |f.guards|
    ensures Shaped(r) && SameLevel(f, r) && r == f.(tiles := r.tiles, guards := r.guards)
    ensures forall j :: 0 <= j < |f.guards| && j != i ==> r.guards[j] == f.guards[j]
    ensures GoldInPlay(r) == GoldInPlay(f)
    ensures var g := f.guards[i];
      r.guards[i].x == g.x && r.guards[i].y == g.y && r.guards[i].state == g.state
      && (r != f ==> IsActive(g) && !g.carryGold && g.x < f.width && g.y < f.height && f.tiles[g.y][g.x] == Gold
                     && r.guards[i].carryGold && r.guards[i].carryGoldTimer == 0 && r.tiles[g.y][g.x] == Empty)
  {
    var g := f.guards[i];
    if !IsActive(g) || g.carryGold then f
    else if Rules.TileAt(MapOf(f), g.x, g.y) == Gold then
      GoldCountSetCell(f.tiles, g.x, g.y, Empty);
      CarriersUpdate(f.guards, i, g.(carryGold := true, carryGoldTimer := 0));
      f.(tiles := SetCell(f.tiles, g.x, g.y, Empty), guards := f.guards[i := g.(carryGold := true, carryGoldTimer := 0)])
    else f
  }

  /** The pickup steps of guards 0 .. k-1, in order. */
  function GuardsPickedUpTo(f: WorldFields, k: nat): (r: WorldFields)
    requires Shaped(f) && k <= |f.guards|
    ensures Shaped(r) && SameLevel(f, r) && r == f.(tiles := r.tiles, guards := r.guards)
    ensures forall j :: k <= j < |f.guards| ==> r.guards[j] == f.guards[j]
    ensures GoldInPlay(r) == GoldInPlay(f)
    decreases k
  {
    if k == 0 then f else GuardPickedUp(GuardsPickedUpTo(f, k - 1), k - 1)
  }

  lemma GuardPickedUpKeepsInv(f: WorldFields, i: nat)
    requires Inv(f) && i < |f.guards|
    ensures Inv(GuardPickedUp(f, i))
  {
    var g := f.guards[i];
    if IsActive(g) && !g.carryGold && Rules.TileAt(MapOf(f), g.x, g.y) == Gold {
      PickUpGoldKeepsInv(f, i, g.(carryGold := true, carryGoldTimer := 0));
    }
  }

  lemma {:induction false} GuardsPickedUpToKeepsInv(f: WorldFields, k: nat)
    requires Inv(f) && k <= |f.guards|
    ensures Inv(GuardsPickedUpTo(f, k))
    decreases k
  {
    if k > 0 {
      GuardsPickedUpToKeepsInv(f, k - 1);
      GuardPickedUpKeepsInv(GuardsPickedUpTo(f, k - 1), k - 1);
    }
  }

  /** `resolve_gold_pickup` as a whole: the player first, then each guard. */
  function GoldPickup(f: WorldFields): (r: (WorldFields, seq<GameEvent>))
    requires Inv(f)
  {
    var p := PlayerPickedUp(f);
    (GuardsPickedUpTo(p.0, |f.guards|), p.1)
  }

  /** The pickup pass keeps the invariant; the gold that leaves play is
      exactly the gold the remaining count drops by. */
  lemma GoldPickupAccounts(f: WorldFields)
    requires Inv(f)
    ensures Inv(GoldPickup(f).0)
    ensures GoldInPlay(GoldPickup(f).0) + f.goldRemaining == GoldInPlay(f) + GoldPickup(f).0.goldRemaining
    ensures GoldPickup(f).0.goldRemaining <= f.goldRemaining <= GoldPickup(f).0.goldRemaining + 1
  {
    PlayerPickedUpAccounts(f);
    GuardsPickedUpToKeepsInv(PlayerPickedUp(f).0, |f.guards|);
  }

  /** The player's pickup, in place. */
  method PlayerPickUp(w: WorldState) returns (events: seq<GameEvent>)
    requires w.Valid()
    modifies w
    ensures w.Fields() == PlayerPickedUp(old(w.Fields())).0 && events == PlayerPickedUp(old(w.Fields())).1
  {
    events := [];
    if w.TerrainAt(w.player.x, w.player.y) == Gold {
      events := CollectGold(w);
    }
  }

  /** The player takes the gold it stands on, in place. */
  method CollectGold(w: WorldState) returns (events: seq<GameEvent>)
    requires w.Valid() && w.TerrainAt(w.player.x, w.player.y) == Gold
    modifies w
    ensures w.Fields() == Collected(old(w.Fields())).0 && events == Collected(old(w.Fields())).1
  {
    ghost var f := w.Fields();
    var px, py := w.player.x, w.player.y;
    GoldCellIsCounted(w.tiles, px, py);
    TakeGold(w, px, py);
    ghost var f1 := w.Fields();
    events := [GoldPicked(px, py)];
    if w.goldRemaining == 0 {
      events := events + [AllGoldCollected];
      EnableExit(w);
      assert w.Fields() == ExitOpened(f1);
    }
  }

  /** The gold at (x, y) leaves the map for the player's score. */
  method TakeGold(w: WorldState, x: nat, y: nat)
    requires IsGrid(w.tiles, w.width, w.height) && x < w.width && y < w.height && w.goldRemaining > 0
    modifies w
    ensures w.Fields() == old(w.Fields()).(tiles := SetCell(old(w.tiles), x, y, Empty),
                                           goldRemaining := old(w.goldRemaining) - 1, score := old(w.score) + 100)
  {
    w.SetTile(x, y, Empty);
    w.goldRemaining := w.goldRemaining - 1;
    w.score := w.score + 100;
  }

  /** The pickup step of guard `i`, in place. */
  method GuardPickUp(w: WorldState, i: nat)
    requires Shaped(w.Fields()) && i < |w.guards|
    modifies w
    ensures w.Fields() == GuardPickedUp(old(w.Fields()), i)
  {
    var g := w.guards[i];
    if g.state == Dead || g.state == InHole || g.carryGold {
      return;
    }
    if w.TerrainAt(g.x, g.y) == Gold {
      w.SetTile(g.x, g.y, Empty);
      w.guards := w.guards[i := g.(carryGold := true, carryGoldTimer := 0)];
    }
  }

  /** `resolve_gold_pickup`, in place. */
  method ResolveGoldPickup(w: WorldState) returns (events: seq<GameEvent>)
    requires w.Valid()
    modifies w
    ensures w.Valid()
    ensures w.Fields() == GoldPickup(old(w.Fields())).0 && events == GoldPickup(old(w.Fields())).1
  {
    ghost var f := w.Fields();
    events := PlayerPickUp(w);
    ghost var f1 := w.Fields();
    for i := 0 to |w.guards|
      invariant w.Fields() == GuardsPickedUpTo(f1, i)
    {
      GuardPickUp(w, i);
    }
    GoldPickupAccounts(f);
  }

  // ---------------------------------------------------------------------
  // resolve_guard_gold_drop
  // ---------------------------------------------------------------------

  /** The drop step of guard `i`. A guard that is not dead and carries gold
      counts one more tick; once the count reaches the limit it puts the
      gold down on its own cell, if gold may rest there, and is reported.
      The guard does not move and no other guard changes; the gold only
      changes hands. */
  function Dropped(f: WorldFields, i: nat): (r: (WorldFields, seq<GameEvent>))
    requires Shaped(f) && i < |f.guards|
    ensures Shaped(r.0) && SameLevel(f, r.0) && r.0 == f.(tiles := r.0.tiles, guards := r.0.guards)
    ensures forall j :: 0 <= j < |f.guards| && j != i ==> r.0.guards[j] == f.guards[j]
    ensures GoldInPlay(r.0) == GoldInPlay(f)
    ensures var g := f.guards[i];
      r.0.guards[i].x == g.x && r.0.guards[i].y == g.y && r.0.guards[i].state == g.state
      && (!g.carryGold || g.state == Dead ==> r == (f, []))
      && (r.1 != [] ==> r.1 == [GuardDroppedGold(g.x, g.y)] && g.carryGoldTimer + 1 >= f.speed.goldCarryTicks
                        && CanDropGoldAt(f, g.x, g.y) && !r.0.guards[i].carryGold && r.0.tiles[g.y][g.x] == Gold)
      && (g.carryGold && g.state != Dead && r.1 == [] ==> r.0.guards[i] == g.(carryGoldTimer := g.carryGoldTimer + 1))
  {
    var g := f.guards[i];
    if !g.carryGold || g.state == Dead then (f, [])
    else
      var t := g.carryGoldTimer + 1;
      if t >= f.speed.goldCarryTicks && CanDropGoldAt(f, g.x, g.y) then
        GoldCountSetCell(f.tiles, g.x, g.y, Gold);
        CarriersUpdate(f.guards, i, g.(carryGold := false, carryGoldTimer := 0));
        (f.(tiles := SetCell(f.tiles, g.x, g.y, Gold), guards := f.guards[i := g.(carryGold := false, carryGoldTimer := 0)]),
         [GuardDroppedGold(g.x, g.y)])
      else
        CarriersUpdate(f.guards, i, g.(carryGoldTimer := t));
        (WithGuard(f, i, g.(carryGoldTimer := t)), [])
  }

  /** The drop steps of guards 0 .. k-1, in order. */
  function DroppedUpTo(f: WorldFields, k: nat): (r: (WorldFields, seq<GameEvent>))
    requires Shaped(f) && k <= |f.guards|
    ensures Shaped(r.0) && SameLevel(f, r.0) && r.0 == f.(tiles := r.0.tiles, guards := r.0.guards)
    ensures forall j :: k <= j < |f.guards| ==> r.0.guards[j] == f.guards[j]
    ensures GoldInPlay(r.0) == GoldInPlay(f)
    decreases k
  {
    if k == 0 then (f, [])
    else
      var prev := DroppedUpTo(f, k - 1);
      var d := Dropped(prev.0, k - 1);
      (d.0, prev.1 + d.1)
  }

  /** `resolve_guard_gold_drop` as a whole; a limit of zero disables it. */
  function GoldDropped(f: WorldFields): (r: (WorldFields, seq<GameEvent>))
    requires Shaped(f)
    ensures f.speed.goldCarryTicks == 0 ==> r == (f, [])
  {
    if f.speed.goldCarryTicks == 0 then (f, []) else DroppedUpTo(f, |f.guards|)
  }

  lemma DroppedKeepsInv(f: WorldFields, i: nat)
    requires Inv(f) && i < |f.guards|
    ensures Inv(Dropped(f, i).0)
  {
    var g := f.guards[i];
    if g.carryGold && g.state != Dead {
      var t := g.carryGoldTimer + 1;
      if t >= f.speed.goldCarryTicks && CanDropGoldAt(f, g.x, g.y) {
        DropGoldKeepsInv(f, g.x, g.y, i, g.(carryGold := false, carryGoldTimer := 0));
      } else {
        UpdateGuardKeepsInv(f, i, g.(carryGoldTimer := t));
      }
    }
  }

  lemma {:induction false} DroppedUpToKeepsInv(f: WorldFields, k: nat)
    requires Inv(f) && k <= |f.guards|
    ensures Inv(DroppedUpTo(f, k).0)
    decreases k
  {
    if k > 0 {
      DroppedUpToKeepsInv(f, k - 1);
      DroppedKeepsInv(DroppedUpTo(f, k - 1).0, k - 1);
    }
  }

  /** The drop step of guard `i`, in place. */
  method GuardDrop(w: WorldState, i: nat) returns (events: seq<GameEvent>)
    requires Shaped(w.Fields()) && i < |w.guards|
    modifies w
    ensures w.Fields() == Dropped(old(w.Fields()), i).0 && events == Dropped(old(w.Fields()), i).1
  {
    ghost var f := w.Fields();
    events := [];
    var g := w.guards[i];
    if !g.carryGold || g.state == Dead {
      return;
    }
    w.guards := w.guards[i := g.(carryGoldTimer := g.carryGoldTimer + 1)];
    ghost var f1 := w.Fields();
    assert f1 == WithGuard(f, i, g.(carryGoldTimer := g.carryGoldTimer + 1));
    if g.carryGoldTimer + 1 >= w.speed.goldCarryTicks {
      var canDrop := CanDropGoldAt(w.Fields(), g.x, g.y);
      assert canDrop == CanDropGoldAt(f, g.x, g.y);
      if canDrop {
        w.SetTile(g.x, g.y, Gold);
        w.guards := w.guards[i := g.(carryGold := false, carryGoldTimer := 0)];
        events := [GuardDroppedGold(g.x, g.y)];
        assert w.Fields() == f.(tiles := SetCell(f.tiles, g.x, g.y, Gold),
                                guards := f.guards[i := g.(carryGold := false, carryGoldTimer := 0)]);
      }
    }
  }

  /** `resolve_guard_gold_drop`, in place. */
  method ResolveGuardGoldDrop(w: WorldState) returns (events: seq<GameEvent>)
    requires w.Valid()
    modifies w
    ensures w.Valid()
    ensures w.Fields() == GoldDropped(old(w.Fields())).0 && events == GoldDropped(old(w.Fields())).1
  {
    events := [];
    if w.speed.goldCarryTicks == 0 {
      return;
    }
    ghost var f := w.Fields();
    for i := 0 to |w.guards|
      invariant w.Fields() == DroppedUpTo(f, i).0 && events == DroppedUpTo(f, i).1
    {
      var e := GuardDrop(w, i);
      events := events + e;
    }
    DroppedUpToKeepsInv(f, |f.guards|);
  }
}
