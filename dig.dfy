/** `resolve_dig` and `resolve_dig_progress`: the player starts a dig beside
    and below itself, and digs whose countdown ran out become open holes. */
module Dig {
  import opened Common
  import opened Tiles
  import opened Entity
  import Rules
  import opened World
  import opened StepBase

  // ---------------------------------------------------------------------
  // resolve_dig
  // ---------------------------------------------------------------------

  /** The dig a request for side `dir` would start: `can_dig` must approve
      it, no dig or hole may already be at the target, and the cell above the
      target must not hold gold. */
  function DigTarget(f: WorldFields, dir: Facing): (r: Option<(nat, nat)>)
    requires Shaped(f)
    ensures r.Some? <==>
      Rules.CanDig(MapOf(f), f.player.x, f.player.y, f.player.state, dir).Some?
      && var (tx, ty) := Rules.CanDig(MapOf(f), f.player.x, f.player.y, f.player.state, dir).value;
      (forall d :: d in f.digs ==> !(d.x == tx && d.y == ty))
      && (forall h :: h in f.holes ==> !(h.x == tx && h.y == ty))
      && f.tiles[ty - 1][tx] != Gold
    ensures r.Some? ==> r == Rules.CanDig(MapOf(f), f.player.x, f.player.y, f.player.state, dir)
  {
    match Rules.CanDig(MapOf(f), f.player.x, f.player.y, f.player.state, dir)
    case None => None
    case Some((tx, ty)) =>
      if exists d :: d in f.digs && d.x == tx && d.y == ty then None
      else if exists h :: h in f.holes && h.x == tx && h.y == ty then None
      else if ty > 0 && Rules.TileAt(MapOf(f), tx, ty - 1) == Gold then None
      else Some((tx, ty))
  }

  /** A dig always starts on a cell that is Brick in the level as loaded,
      below the top row: the cell a hole may later occupy. */
  lemma StartDigKeepsInv(f: WorldFields, dir: Facing)
    requires Inv(f) && DigTarget(f, dir).Some?
    ensures var (tx, ty) := DigTarget(f, dir).value;
      DugCell(f.baseTiles, f.width, f.height, tx, ty)
      && Inv(f.(digs := f.digs + [NewDig(tx, ty, f.speed.digDuration)]))
  {
    Rules.DigTargetIsBrickBesideActor(MapOf(f), f.player.x, f.player.y, f.player.state, dir);
  }

  /** The world and events after `resolve_dig`: only the dig list may
      change, by one new dig of the configured duration at the target
      `DigTarget` accepts, reported as a new hole; a request it refuses, or
      no request, changes nothing and reports nothing. */
  function DigResolved(f: WorldFields, dig: FacingOption): (r: (WorldFields, seq<GameEvent>))
    requires Shaped(f)
    ensures r.0 == f.(digs := r.0.digs)
    ensures r.1 != [] <==> dig.Dig? && DigTarget(f, dig.side).Some?
    ensures r.1 == [] ==> r.0 == f
    ensures r.1 != [] ==> var (tx, ty) := DigTarget(f, dig.side).value;
      r.1 == [HoleCreated(tx, ty)] && r.0.digs == f.digs + [NewDig(tx, ty, f.speed.digDuration)]
  {
    if dig.Dig? && DigTarget(f, dig.side).Some? then
      var (tx, ty) := DigTarget(f, dig.side).value;
      (f.(digs := f.digs + [NewDig(tx, ty, f.speed.digDuration)]), [HoleCreated(tx, ty)])
    else
      (f, [])
  }

  lemma DigResolvedKeepsInv(f: WorldFields, dig: FacingOption)
    requires Inv(f)
    ensures Inv(DigResolved(f, dig).0)
  {
    if dig.Dig? && DigTarget(f, dig.side).Some? {
      StartDigKeepsInv(f, dig.side);
    }
  }

  /** `resolve_dig`, in place. */
  method ResolveDig(w: WorldState, dig: FacingOption) returns (events: seq<GameEvent>)
    requires w.Valid()
    modifies w
    ensures w.Valid()
    ensures (w.Fields(), events) == DigResolved(old(w.Fields()), dig)
  {
    events := [];
    if dig.NoDig? {
      return;
    }
    var p := w.player;
    var target := Rules.CanDig(w.Map(), p.x, p.y, p.state, dig.side);
    if target.Some? {
      var (dx, dy) := target.value;
      if exists d :: d in w.digs && d.x == dx && d.y == dy {
        return;
      }
      if exists h :: h in w.holes && h.x == dx && h.y == dy {
        return;
      }
      if dy > 0 && w.TerrainAt(dx, dy - 1) == Gold {
        return;
      }
      StartDigKeepsInv(w.Fields(), dig.side);
      w.digs := w.digs + [NewDig(dx, dy, w.speed.digDuration)];
      events := [HoleCreated(dx, dy)];
    }
  }

  // ---------------------------------------------------------------------
  // resolve_dig_progress
  // ---------------------------------------------------------------------

  predicate Finished(d: DigInProgress)
  {
    d.ticksRemaining == 0
  }

  /** One tick of a dig: the countdown moves toward 0 and stops there. */
  function Decremented(d: DigInProgress): DigInProgress
  {
    if d.ticksRemaining > 0 then d.(ticksRemaining := d.ticksRemaining - 1) else d
  }

  /** Every dig ticked once. */
  function DecAll(ds: seq<DigInProgress>): (r: seq<DigInProgress>)
    ensures |r| == |ds| && forall i :: 0 <= i < |ds| ==> r[i] == Decremented(ds[i])
  {
    seq(|ds|, i requires 0 <= i < |ds| => Decremented(ds[i]))
  }

  /** The digs still in progress, in their order. */
  function Pending(s: seq<DigInProgress>): (r: seq<DigInProgress>)
  {
    if |s| == 0 then []
    else (if Finished(s[0]) then [] else [s[0]]) + Pending(s[1..])
  }

  /** `Hole::new` for a finished dig, with the configured phase lengths. */
  function HoleOf(d: DigInProgress, sp: SpeedConfig): Hole
  {
    Hole(d.x, d.y, sp.holeOpenTicks, sp.holeCloseTicks)
  }

  /** The holes the finished digs of `s` open, the last dig's first: the
      source handles completed indices in reverse. */
  function NewHoles(s: seq<DigInProgress>, sp: SpeedConfig): (r: seq<Hole>)
  {
    if |s| == 0 then []
    else NewHoles(s[1..], sp) + (if Finished(s[0]) then [HoleOf(s[0], sp)] else [])
  }

  /** The tile layer with every finished dig's cell emptied, the last dig's
      cell first. */
  function Cleared(tiles: seq<seq<Tile>>, width: nat, height: nat, s: seq<DigInProgress>): (r: seq<seq<Tile>>)
    requires IsGrid(tiles, width, height)
    ensures IsGrid(r, width, height)
  {
    if |s| == 0 then tiles
    else
      var t := Cleared(tiles, width, height, s[1..]);
      if Finished(s[0]) then PutTile(t, width, height, s[0].x, s[0].y, Empty) else t
  }

  /** The world after `resolve_dig_progress`: every dig ticks; the finished
      ones leave the dig list, their cells become Empty and each opens a
      hole. */
  function DigsProgressed(f: WorldFields): (r: WorldFields)
    requires Shaped(f)
    ensures Shaped(r) && SameLevel(f, r)
    ensures r == f.(digs := r.digs, holes := r.holes, tiles := r.tiles)
  {
    var dec := DecAll(f.digs);
    f.(digs := Pending(dec), holes := f.holes + NewHoles(dec, f.speed),
       tiles := Cleared(f.tiles, f.width, f.height, dec))
  }

  /** Every dig either stays in progress, one tick nearer completion, or
      turns into exactly one hole at its own cell: none is lost or doubled. */
  lemma {:induction false} EveryDigStaysOrOpens(s: seq<DigInProgress>, sp: SpeedConfig)
    ensures |Pending(s)| + |NewHoles(s, sp)| == |s|
    ensures forall d :: d in Pending(s) ==> d in s && !Finished(d)
    ensures forall h :: h in NewHoles(s, sp) ==> exists d :: d in s && Finished(d) && h == HoleOf(d, sp)
    decreases |s|
  {
    if |s| > 0 {
      EveryDigStaysOrOpens(s[1..], sp);
      forall h | h in NewHoles(s, sp)
        ensures exists d :: d in s && Finished(d) && h == HoleOf(d, sp)
      {
        if h in NewHoles(s[1..], sp) {
          var d :| d in s[1..] && Finished(d) && h == HoleOf(d, sp);
          assert d in s;
        } else {
          assert Finished(s[0]) && h == HoleOf(s[0], sp);
        }
      }
    }
  }

  /** A dig in progress loses exactly one tick; a dig finishes exactly when
      it had at most one tick left. */
  lemma DigTicksDown(f: WorldFields)
    requires Shaped(f)
    ensures forall i :: 0 <= i < |f.digs| ==>
      (Finished(DecAll(f.digs)[i]) <==> f.digs[i].ticksRemaining <= 1)
      && (!Finished(DecAll(f.digs)[i]) ==> DecAll(f.digs)[i].ticksRemaining + 1 == f.digs[i].ticksRemaining)
    ensures |DigsProgressed(f).digs| + |DigsProgressed(f).holes| == |f.digs| + |f.holes|
  {
    EveryDigStaysOrOpens(DecAll(f.digs), f.speed);
  }

  predicate AllPending(p: seq<DigInProgress>)
  {
    forall i :: 0 <= i < |p| ==> !Finished(p[i])
  }

  /** Digs still in progress in front of `t` stay in progress. */
  lemma {:induction false} SkipPending(p: seq<DigInProgress>, t: seq<DigInProgress>)
    requires AllPending(p)
    ensures Pending(p + t) == p + Pending(t)
    decreases |p|
  {
    if |p| > 0 {
      assert (p + t)[1..] == p[1..] + t;
      SkipPending(p[1..], t);
      assert [p[0]] + p[1..] == p;
    } else {
      assert p + t == t;
    }
  }

  /** Digs still in progress in front of `t` open no hole and clear no
      cell. */
  lemma {:induction false} SkipPendingEffects(p: seq<DigInProgress>, t: seq<DigInProgress>, tiles: seq<seq<Tile>>, width: nat, height: nat, sp: SpeedConfig)
    requires AllPending(p) && IsGrid(tiles, width, height)
    ensures NewHoles(p + t, sp) == NewHoles(t, sp)
    ensures Cleared(tiles, width, height, p + t) == Cleared(tiles, width, height, t)
    decreases |p|
  {
    if |p| > 0 {
      assert (p + t)[1..] == p[1..] + t;
      SkipPendingEffects(p[1..], t, tiles, width, height, sp);
    } else {
      assert p + t == t;
    }
  }

  /** Handling the finished dig at `idx`, when the digs between it and `b`
      are all in progress. */
  lemma PeelFinished(dec: seq<DigInProgress>, idx: nat, b: nat, tiles: seq<seq<Tile>>, width: nat, height: nat, sp: SpeedConfig)
    requires idx < b <= |dec| && Finished(dec[idx]) && AllPending(dec[idx + 1..b])
    requires IsGrid(tiles, width, height)
    ensures Pending(dec[idx..]) == dec[idx + 1..b] + Pending(dec[b..])
    ensures NewHoles(dec[idx..], sp) == NewHoles(dec[b..], sp) + [HoleOf(dec[idx], sp)]
    ensures Cleared(tiles, width, height, dec[idx..])
         == PutTile(Cleared(tiles, width, height, dec[b..]), width, height, dec[idx].x, dec[idx].y, Empty)
  {
    assert dec[idx..][1..] == dec[idx + 1..b] + dec[b..];
    SkipPending(dec[idx + 1..b], dec[b..]);
    SkipPendingEffects(dec[idx + 1..b], dec[b..], tiles, width, height, sp);
  }

  /** Emptying finished dig cells creates no Brick and no gold. */
  lemma {:induction false} ClearedKeepsLayers(f: WorldFields, s: seq<DigInProgress>)
    requires Inv(f)
    ensures var t := Cleared(f.tiles, f.width, f.height, s);
      LayersAgree(t, f.baseTiles, f.width, f.height) && GoldCount(t) <= GoldCount(f.tiles)
    decreases |s|
  {
    if |s| > 0 {
      ClearedKeepsLayers(f, s[1..]);
      var t := Cleared(f.tiles, f.width, f.height, s[1..]);
      if Finished(s[0]) && s[0].x < f.width && s[0].y < f.height {
        GoldCountSetCell(t, s[0].x, s[0].y, Empty);
      }
    }
  }

  lemma DigsProgressedKeepsInv(f: WorldFields)
    requires Inv(f)
    ensures Inv(DigsProgressed(f))
  {
    var dec := DecAll(f.digs);
    var r := DigsProgressed(f);
    EveryDigStaysOrOpens(dec, f.speed);
    ClearedKeepsLayers(f, dec);
    forall d | d in dec
      ensures DugCell(f.baseTiles, f.width, f.height, d.x, d.y)
    {
      var i :| 0 <= i < |dec| && dec[i] == d;
      assert f.digs[i] in f.digs;
    }
    forall h | h in r.holes
      ensures DugCell(f.baseTiles, f.width, f.height, h.x, h.y)
    {
      if h !in f.holes {
        assert h in NewHoles(dec, f.speed);
      }
    }
  }

  /** The indices of the finished digs among the first `i` of `dec`, in
      increasing order: the list the tick loop builds. */
  function FinishedUpTo(dec: seq<DigInProgress>, i: nat): seq<nat>
    requires i <= |dec|
  {
    if i == 0 then []
    else FinishedUpTo(dec, i - 1) + (if Finished(dec[i - 1]) then [i - 1] else [])
  }

  /** `completed` lists, in increasing order, exactly the finished digs
      among the first `i` of `dec`. */
  ghost predicate FinishedIndices(completed: seq<nat>, dec: seq<DigInProgress>, i: nat)
  {
    (forall k :: 0 <= k < |completed| ==> completed[k] < i && completed[k] < |dec| && Finished(dec[completed[k]]))
    && (forall k, l :: 0 <= k < l < |completed| ==> completed[k] < completed[l])
    && (forall j :: 0 <= j < i && j < |dec| && Finished(dec[j]) ==> j in completed)
  }

  lemma {:induction false} FinishedUpToIsExact(dec: seq<DigInProgress>, i: nat)
    requires i <= |dec|
    ensures FinishedIndices(FinishedUpTo(dec, i), dec, i)
  {
    if i > 0 {
      FinishedUpToIsExact(dec, i - 1);
      var c := FinishedUpTo(dec, i - 1);
      if Finished(dec[i - 1]) {
        assert FinishedUpTo(dec, i) == c + [i - 1];
        assert forall j :: j in c ==> j in c + [i - 1];
      }
    }
  }

  /** The first dig index handled so far by the reverse pass. */
  function Handled(completed: seq<nat>, m: nat, n: nat): nat
  {
    if m < |completed| then completed[m] else n
  }

  /** First half of `resolve_dig_progress`: tick every dig in place and
      list the finished ones in increasing order. */
  method TickDigs(w: WorldState) returns (completed: seq<nat>)
    modifies w
    ensures w.Fields() == old(w.Fields()).(digs := DecAll(old(w.digs)))
    ensures completed == FinishedUpTo(w.digs, |w.digs|)
  {
    ghost var f := w.Fields();
    ghost var dec := DecAll(f.digs);
    completed := [];
    for i := 0 to |w.digs|
      invariant w.Fields() == f.(digs := w.digs)
      invariant |w.digs| == |f.digs|
      invariant forall k :: 0 <= k < i ==> w.digs[k] == dec[k]
      invariant forall k :: i <= k < |f.digs| ==> w.digs[k] == f.digs[k]
      invariant completed == FinishedUpTo(dec, i)
    {
      var d := w.digs[i];
      if d.ticksRemaining > 0 {
        d := d.(ticksRemaining := d.ticksRemaining - 1);
      }
      w.digs := w.digs[i := d];
      if d.ticksRemaining == 0 {
        completed := completed + [i];
      }
    }
    assert w.digs == dec;
  }

  /** A listed index is in range, finished, and below the next one. */
  lemma ListedIsFinished(dec: seq<DigInProgress>, completed: seq<nat>, m: nat)
    requires completed == FinishedUpTo(dec, |dec|) && m < |completed|
    ensures completed[m] < |dec| && Finished(dec[completed[m]])
    ensures completed[m] < Handled(completed, m + 1, |dec|) <= |dec|
  {
    FinishedUpToIsExact(dec, |dec|);
  }

  /** Between two consecutive listed indices, and below the first one,
      every dig is still in progress. */
  lemma GapIsPending(dec: seq<DigInProgress>, completed: seq<nat>, m: nat, lo: nat)
    requires completed == FinishedUpTo(dec, |dec|) && m <= |completed|
    requires if m == 0 then lo == 0 else completed[m - 1] + 1 == lo
    ensures lo <= Handled(completed, m, |dec|) <= |dec|
    ensures AllPending(dec[lo..Handled(completed, m, |dec|)])
  {
    FinishedUpToIsExact(dec, |dec|);
    var b := Handled(completed, m, |dec|);
    forall j | lo <= j < b
      ensures !Finished(dec[j])
    {
      forall k | 0 <= k < |completed|
        ensures completed[k] != j
      {
        if k < m {
          assert completed[k] <= completed[m - 1];
        } else {
          assert completed[m] <= completed[k];
        }
      }
      assert j !in completed;
    }
  }

  /** The state of the reverse pass once the finished digs from position
      `m` of `completed` on are handled, as a function of the ticked digs. */
  function ReversePass(f: WorldFields, completed: seq<nat>, m: nat): (r: WorldFields)
    requires Shaped(f) && Handled(completed, m, |f.digs|) <= |f.digs|
  {
    var b := Handled(completed, m, |f.digs|);
    f.(digs := f.digs[..b] + Pending(f.digs[b..]),
       holes := f.holes + NewHoles(f.digs[b..], f.speed),
       tiles := Cleared(f.tiles, f.width, f.height, f.digs[b..]))
  }

  /** Removing position `idx` from the digs of the reverse pass. */
  lemma RemoveFinished(dec: seq<DigInProgress>, idx: nat, b: nat)
    requires idx < b <= |dec| && Finished(dec[idx]) && AllPending(dec[idx + 1..b])
    ensures var ds := dec[..b] + Pending(dec[b..]);
      ds[idx] == dec[idx] && ds[..idx] + ds[idx + 1..] == dec[..idx] + Pending(dec[idx..])
  {
    assert dec[idx..][1..] == dec[idx + 1..b] + dec[b..];
    SkipPending(dec[idx + 1..b], dec[b..]);
  }

  /** Handling `completed[m]` takes the reverse pass one position back. */
  lemma ReverseStep(f: WorldFields, completed: seq<nat>, m: nat)
    requires Shaped(f) && completed == FinishedUpTo(f.digs, |f.digs|) && m < |completed|
    ensures Handled(completed, m, |f.digs|) <= |f.digs| && Handled(completed, m + 1, |f.digs|) <= |f.digs|
    ensures var r := ReversePass(f, completed, m + 1); var idx := completed[m];
      idx < |r.digs| && idx < |f.digs| && r.digs[idx] == f.digs[idx]
      && ReversePass(f, completed, m)
         == r.(digs := r.digs[..idx] + r.digs[idx + 1..],
               tiles := PutTile(r.tiles, r.width, r.height, r.digs[idx].x, r.digs[idx].y, Empty),
               holes := r.holes + [HoleOf(r.digs[idx], r.speed)])
  {
    var dec := f.digs;
    var idx := completed[m];
    ListedIsFinished(dec, completed, m);
    var b := Handled(completed, m + 1, |dec|);
    GapIsPending(dec, completed, m + 1, idx + 1);
    RemoveFinished(dec, idx, b);
    PeelFinished(dec, idx, b, f.tiles, f.width, f.height, f.speed);
  }

  /** Before any step the reverse pass is the identity. */
  lemma ReverseStart(f: WorldFields, completed: seq<nat>)
    requires Shaped(f)
    ensures Handled(completed, |completed|, |f.digs|) == |f.digs|
    ensures ReversePass(f, completed, |completed|) == f
  {
    assert f.digs[|f.digs|..] == [];
    assert f.digs[..|f.digs|] == f.digs;
  }

  /** After the last step the reverse pass is the whole pass. */
  lemma ReverseFinish(f: WorldFields, completed: seq<nat>)
    requires Shaped(f) && completed == FinishedUpTo(f.digs, |f.digs|)
    ensures Handled(completed, 0, |f.digs|) <= |f.digs|
    ensures ReversePass(f, completed, 0)
      == f.(digs := Pending(f.digs), holes := f.holes + NewHoles(f.digs, f.speed),
            tiles := Cleared(f.tiles, f.width, f.height, f.digs))
  {
    var dec := f.digs;
    GapIsPending(dec, completed, 0, 0);
    var b0 := Handled(completed, 0, |dec|);
    assert dec[..b0] + dec[b0..] == dec;
    SkipPending(dec[..b0], dec[b0..]);
    SkipPendingEffects(dec[..b0], dec[b0..], f.tiles, f.width, f.height, f.speed);
  }

  /** One reverse step: remove dig `idx`, empty its cell and open a hole
      there. */
  method OpenDig(w: WorldState, idx: nat)
    requires Shaped(w.Fields()) && idx < |w.digs|
    modifies w
    ensures var f := old(w.Fields()); var d := f.digs[idx];
      w.Fields() == f.(digs := f.digs[..idx] + f.digs[idx + 1..],
                       tiles := PutTile(f.tiles, f.width, f.height, d.x, d.y, Empty),
                       holes := f.holes + [HoleOf(d, f.speed)])
  {
    var dig := w.digs[idx];
    w.digs := w.digs[..idx] + w.digs[idx + 1..];
    w.SetTile(dig.x, dig.y, Empty);
    w.holes := w.holes + [Hole(dig.x, dig.y, w.speed.holeOpenTicks, w.speed.holeCloseTicks)];
  }

  /** Second half of `resolve_dig_progress`: remove the listed finished digs
      from the last to the first, emptying each cell and opening a hole. */
  method OpenFinishedDigs(w: WorldState, completed: seq<nat>)
    requires Shaped(w.Fields()) && completed == FinishedUpTo(w.digs, |w.digs|)
    modifies w
    ensures var f := old(w.Fields());
      w.Fields() == f.(digs := Pending(f.digs), holes := f.holes + NewHoles(f.digs, f.speed),
                       tiles := Cleared(f.tiles, f.width, f.height, f.digs))
  {
    ghost var f := w.Fields();
    ReverseStart(f, completed);
    var m := |completed|;
    while m > 0
      invariant 0 <= m <= |completed|
      invariant Handled(completed, m, |f.digs|) <= |f.digs|
      invariant w.Fields() == ReversePass(f, completed, m)
    {
      m := m - 1;
      ReverseStep(f, completed, m);
      OpenDig(w, completed[m]);
    }
    ReverseFinish(f, completed);
  }

  /** `resolve_dig_progress`, in place. */
  method ResolveDigProgress(w: WorldState)
    requires w.Valid()
    modifies w
    ensures w.Valid()
    ensures w.Fields() == DigsProgressed(old(w.Fields()))
  {
    ghost var f := w.Fields();
    var completed := TickDigs(w);
    OpenFinishedDigs(w, completed);
    DigsProgressedKeepsInv(f);
  }
}
