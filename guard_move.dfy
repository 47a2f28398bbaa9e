/** Guard movement for one tick (`resolve_guard_movement`):
    separation timers count down; every guard free to move asks the AI for
    a unit step; steps onto a cell held by another free guard, or onto a
    cell an earlier step already claimed, are refused; the approved steps
    are taken; every free guard's state is recomputed; and free guards that
    touch enter separation mode.

    The AI's choices come from methods, so the specification takes them as
    a parameter: `choices[i]` is the step the AI picked for guard `i`, and
    the method that runs the pass returns the choices it obtained. */
module GuardMove {
  import opened Common
  import opened Entity
  import opened World
  import opened StepBase
  import Rules
  import Physics
  import Ai

  /** `MoveIntent`: guard `guardIdx` asks to step onto (tx, ty); `dx` is the
      horizontal part of the step. */
  datatype Intent = Intent(guardIdx: nat, tx: nat, ty: nat, dx: int)

  function Dec(n: nat): nat
  {
    if n > 0 then n - 1 else 0
  }

  // ---- Phase 0: separation timers count down ----

  function SepTicked(gs: seq<Guard>): seq<Guard>
  {
    seq(|gs|, i requires 0 <= i < |gs| => gs[i].(separationTimer := Dec(gs[i].separationTimer)))
  }

  method TickSeparation(w: WorldState)
    modifies w
    ensures w.Fields() == old(w.Fields()).(guards := SepTicked(old(w.guards)))
  {
    var gs := w.guards;
    for i := 0 to |gs|
      invariant |gs| == |w.guards|
      invariant forall j :: 0 <= j < i ==> gs[j] == SepTicked(w.guards)[j]
      invariant forall j :: i <= j < |gs| ==> gs[j] == w.guards[j]
    {
      var g := gs[i];
      if g.separationTimer > 0 {
        g := g.(separationTimer := g.separationTimer - 1);
      }
      gs := gs[i := g];
    }
    w.guards := gs;
  }

  // ---- Phase 1: intents ----

  /** A guard that may walk this tick: not dead, trapped or falling. */
  predicate Movable(g: Guard)
  {
    g.state != Dead && g.state != InHole && g.state != Falling
  }

  /** A free guard waiting out its move cooldown only counts it down. */
  function CooledDown(g: Guard): Guard
  {
    if Movable(g) && g.moveCooldown > 0 then g.(moveCooldown := g.moveCooldown - 1) else g
  }

  function CooledAll(gs: seq<Guard>): seq<Guard>
  {
    seq(|gs|, i requires 0 <= i < |gs| => CooledDown(gs[i]))
  }

  /** The intent guard `i` (which is `g`) files for the AI step `d`: none
      unless the guard may move, is off cooldown, the step is not (0, 0) and
      lands on an in-bounds passable cell. A step below column or row 0
      wraps to a huge unsigned index in the source, so it fails the bounds
      test there too. */
  function IntentOf(m: Rules.MapView, hg: seq<seq<bool>>, i: nat, g: Guard, d: (int, int)): (r: Option<Intent>)
    requires m.Valid()
    ensures r.Some? <==>
      Movable(g) && g.moveCooldown == 0 && d != (0, 0)
      && 0 <= g.x + d.0 < m.width && 0 <= g.y + d.1 < m.height
      && Physics.TerrainAt(m, hg, g.x + d.0, g.y + d.1).passable
    ensures r.Some? ==> r.value == Intent(i, g.x + d.0, g.y + d.1, d.0)
  {
    if !Movable(g) || g.moveCooldown > 0 || d == (0, 0) then None
    else if g.x + d.0 < 0 || g.y + d.1 < 0 then None
    else
      var nx: nat := g.x + d.0;
      var ny: nat := g.y + d.1;
      if nx >= m.width || ny >= m.height then None
      else if !Physics.TerrainAt(m, hg, nx, ny).passable then None
      else Some(Intent(i, nx, ny, d.0))
  }

  /** The intents the guards `gs` file for the AI steps `choices`, in
      guard order. */
  function Intents(m: Rules.MapView, hg: seq<seq<bool>>, gs: seq<Guard>, choices: seq<(int, int)>): seq<Intent>
    requires m.Valid() && |choices| == |gs|
  {
    if |gs| == 0 then []
    else
      var k := |gs| - 1;
      var prev := Intents(m, hg, gs[..k], choices[..k]);
      match IntentOf(m, hg, k, gs[k], choices[k])
      case Some(it) => prev + [it]
      case None => prev
  }

  /** Every intent is the one its guard files, and the guards come in
      strictly increasing order, so no guard files twice. */
  lemma {:induction false} IntentsAreFiled(m: Rules.MapView, hg: seq<seq<bool>>, gs: seq<Guard>, choices: seq<(int, int)>)
    requires m.Valid() && |choices| == |gs|
    ensures forall n :: 0 <= n < |Intents(m, hg, gs, choices)| ==>
      var it := Intents(m, hg, gs, choices)[n];
      it.guardIdx < |gs| && IntentOf(m, hg, it.guardIdx, gs[it.guardIdx], choices[it.guardIdx]) == Some(it)
    ensures forall n1, n2 :: 0 <= n1 < n2 < |Intents(m, hg, gs, choices)| ==>
      Intents(m, hg, gs, choices)[n1].guardIdx < Intents(m, hg, gs, choices)[n2].guardIdx
  {
    if |gs| > 0 {
      var k := |gs| - 1;
      IntentsAreFiled(m, hg, gs[..k], choices[..k]);
    }
  }

  /** Every guard that files an intent has it in the list. */
  lemma {:induction false} FiledIntentsAreListed(m: Rules.MapView, hg: seq<seq<bool>>, gs: seq<Guard>, choices: seq<(int, int)>, i: nat)
    requires m.Valid() && |choices| == |gs| && i < |gs|
    requires IntentOf(m, hg, i, gs[i], choices[i]).Some?
    ensures IntentOf(m, hg, i, gs[i], choices[i]).value in Intents(m, hg, gs, choices)
  {
    var k := |gs| - 1;
    if i < k {
      assert gs[..k][i] == gs[i] && choices[..k][i] == choices[i];
      FiledIntentsAreListed(m, hg, gs[..k], choices[..k], i);
    }
  }

  /** What the AI may answer for guard `i` (which is `g`): separation mode
      while its separation timer runs, the chase otherwise. */
  ghost predicate AiAnswer(c: Ai.Ctx, i: nat, g: Guard, px: nat, py: nat, d: (int, int))
    requires c.Valid()
  {
    if g.separationTimer > 0 then Ai.SeparationAnswer(c, i, g.x, g.y, g.state, px, py, d)
    else Ai.ChaseAnswer(c, g.x, g.y, g.state, px, py, d)
  }

  /** The AI's step for guard `i` (which is `g`). */
  method ChooseStep(c: Ai.Ctx, i: nat, g: Guard, px: nat, py: nat) returns (d: (int, int))
    requires c.Valid() && g.x < c.m.width && g.y < c.m.height
    ensures d == (0, 0) || d in Ai.DIRS
    ensures AiAnswer(c, i, g, px, py, d)
  {
    ghost var a: bool, b: nat, e: nat, q: seq<(nat, nat)>;
    if g.separationTimer > 0 {
      d, a, b, e := Ai.FindSeparationDirection(c, i, g.x, g.y, g.state, px, py);
    } else {
      d, a, q, e := Ai.FindDirection(c, g.x, g.y, g.state, px, py);
    }
  }

  /** The guards as phase 1 shows them to the AI when it reaches guard `i`:
      the guards before `i` have already counted their cooldown down. */
  function CooledBefore(gs: seq<Guard>, i: nat): (r: seq<Guard>)
    ensures |r| == |gs|
  {
    seq(|gs|, j requires 0 <= j < |gs| => if j < i then CooledDown(gs[j]) else gs[j])
  }

  /** The step `d` recorded for guard `i` of `gs` is one the AI may answer
      when the guard asks, and (0, 0) when it does not ask (it is dead,
      trapped, falling or cooling down). */
  ghost predicate AiChoseFor(m: Rules.MapView, hg: seq<seq<bool>>, gs: seq<Guard>, px: nat, py: nat, i: nat, d: (int, int))
    requires m.Valid() && i < |gs|
  {
    if Movable(gs[i]) && gs[i].moveCooldown == 0 then
      AiAnswer(Ai.Ctx(m, hg, CooledBefore(gs, i)), i, gs[i], px, py, d)
    else d == (0, 0)
  }

  /** Every recorded step is one the AI may answer for its guard. */
  ghost predicate AiChose(m: Rules.MapView, hg: seq<seq<bool>>, gs: seq<Guard>, px: nat, py: nat, choices: seq<(int, int)>)
    requires m.Valid()
  {
    |choices| == |gs| && forall i :: 0 <= i < |gs| ==> AiChoseFor(m, hg, gs, px, py, i, choices[i])
  }

  /** Phase 1 for guard `i`: its new value and the AI step it asked for,
      (0, 0) when it did not ask. */
  method ConsiderGuard(m: Rules.MapView, hg: seq<seq<bool>>, gs: seq<Guard>, i: nat, px: nat, py: nat)
    returns (g: Guard, d: (int, int))
    requires m.Valid() && i < |gs| && gs[i].x < m.width && gs[i].y < m.height
    ensures g == CooledDown(gs[i])
    ensures d == (0, 0) || d in Ai.DIRS
    ensures d != (0, 0) ==> Movable(gs[i]) && gs[i].moveCooldown == 0
    ensures Movable(gs[i]) && gs[i].moveCooldown == 0 ==> AiAnswer(Ai.Ctx(m, hg, gs), i, gs[i], px, py, d)
    ensures !(Movable(gs[i]) && gs[i].moveCooldown == 0) ==> d == (0, 0)
  {
    g := gs[i];
    d := (0, 0);
    if !Movable(g) {
      return;
    }
    if g.moveCooldown > 0 {
      g := g.(moveCooldown := g.moveCooldown - 1);
      return;
    }
    d := ChooseStep(Ai.Ctx(m, hg, gs), i, g, px, py);
  }

  /** Phase 1 in place: free guards on cooldown count it down, the others
      ask the AI and file an intent. Returns the intents and, per guard, the
      step the AI chose, (0, 0) for a guard that did not ask. */
  method CollectIntents(w: WorldState) returns (intents: seq<Intent>, choices: seq<(int, int)>)
    requires Shaped(w.Fields()) && GuardsOnMap(w.width, w.height, w.guards)
    modifies w
    ensures |choices| == |old(w.guards)|
    ensures forall i :: 0 <= i < |choices| ==> choices[i] == (0, 0) || choices[i] in Ai.DIRS
    ensures intents == Intents(old(w.Map()), old(w.holeGrid), old(w.guards), choices)
    ensures AiChose(old(w.Map()), old(w.holeGrid), old(w.guards), old(w.player.x), old(w.player.y), choices)
    ensures w.Fields() == old(w.Fields()).(guards := CooledAll(old(w.guards)))
  {
    var m := w.Map();
    var hg := w.holeGrid;
    var px := w.player.x;
    var py := w.player.y;
    var gs := w.guards;
    ghost var orig := w.guards;
    intents := [];
    choices := [];
    for i := 0 to |gs|
      invariant |gs| == |orig| && |choices| == i
      invariant w.Fields() == old(w.Fields())
      invariant forall j :: 0 <= j < i ==> gs[j] == CooledDown(orig[j])
      invariant forall j :: i <= j < |gs| ==> gs[j] == orig[j]
      invariant forall j :: 0 <= j < i ==> choices[j] == (0, 0) || choices[j] in Ai.DIRS
      invariant intents == Intents(m, hg, orig[..i], choices)
      invariant forall j :: 0 <= j < i ==> AiChoseFor(m, hg, orig, px, py, j, choices[j])
    {
      assert GuardOnMap(w.width, w.height, orig[i]);
      assert gs == CooledBefore(orig, i);
      var g, d := ConsiderGuard(m, hg, gs, i, px, py);
      assert AiChoseFor(m, hg, orig, px, py, i, d);
      var it := IntentOf(m, hg, i, gs[i], d);
      gs := gs[i := g];
      if it.Some? {
        intents := intents + [it.value];
      }
      assert orig[..i + 1][..i] == orig[..i] && (choices + [d])[..i] == choices;
      choices := choices + [d];
    }
    assert orig[..|gs|] == orig;
    w.guards := gs;
  }

  // ---- Phase 2: conflicts, first come first served ----

  /** Intents `0 .. k-1` after conflict resolution: the claimed target
      cells, and the indices of the approved intents. An intent is refused
      when another free guard stands on its target, or when an earlier
      approved intent claimed that cell. */
  function ApprovedUpTo(its: seq<Intent>, gs: seq<Guard>, k: nat): (seq<(nat, nat)>, seq<nat>)
    requires k <= |its|
  {
    if k == 0 then ([], [])
    else
      var prev := ApprovedUpTo(its, gs, k - 1);
      var it := its[k - 1];
      if Physics.HasActiveGuardExcept(gs, it.tx, it.ty, it.guardIdx) || (it.tx, it.ty) in prev.0 then prev
      else (prev.0 + [(it.tx, it.ty)], prev.1 + [k - 1])
  }

  /** The approved intents of `its`. */
  function Approved(its: seq<Intent>, gs: seq<Guard>): seq<nat>
  {
    ApprovedUpTo(its, gs, |its|).1
  }

  /** Conflict resolution approves intents in order, each onto a cell no
      other free guard holds, and records each approved target. */
  lemma {:induction false} ApprovedTargetsAreFree(its: seq<Intent>, gs: seq<Guard>, k: nat)
    requires k <= |its|
    ensures var (occ, ok) := ApprovedUpTo(its, gs, k);
      |occ| == |ok|
      && (forall a :: 0 <= a < |ok| ==>
            ok[a] < k && occ[a] == (its[ok[a]].tx, its[ok[a]].ty)
            && !Physics.HasActiveGuardExcept(gs, its[ok[a]].tx, its[ok[a]].ty, its[ok[a]].guardIdx))
      && (forall a, b :: 0 <= a < b < |ok| ==> ok[a] < ok[b])
  {
    if k > 0 {
      ApprovedTargetsAreFree(its, gs, k - 1);
    }
  }

  /** No two approved intents claim the same cell. */
  lemma {:induction false} ApprovedTargetsDiffer(its: seq<Intent>, gs: seq<Guard>, k: nat)
    requires k <= |its|
    ensures var (occ, ok) := ApprovedUpTo(its, gs, k);
      |occ| == |ok| && forall a, b :: 0 <= a < b < |occ| ==> occ[a] != occ[b]
  {
    if k > 0 {
      ApprovedTargetsDiffer(its, gs, k - 1);
    }
  }

  /** First come, first served: an intent is refused only when another free
      guard holds its target, or an earlier approved intent claimed it. */
  lemma {:induction false} RefusedIntentsConflict(its: seq<Intent>, gs: seq<Guard>, k: nat)
    requires k <= |its|
    ensures var (occ, ok) := ApprovedUpTo(its, gs, k);
      forall n :: 0 <= n < k && n !in ok ==>
        Physics.HasActiveGuardExcept(gs, its[n].tx, its[n].ty, its[n].guardIdx)
        || exists a :: 0 <= a < |occ| && a < |ok| && ok[a] < n && occ[a] == (its[n].tx, its[n].ty)
  {
    if k > 0 {
      var (occ, ok) := ApprovedUpTo(its, gs, k - 1);
      var (occ', ok') := ApprovedUpTo(its, gs, k);
      assert occ' == occ || occ' == occ + [(its[k - 1].tx, its[k - 1].ty)];
      assert ok' == ok || ok' == ok + [k - 1];
      assert |occ| <= |occ'| && |ok| <= |ok'|;
      assert forall a :: 0 <= a < |occ| ==> occ'[a] == occ[a];
      assert forall a :: 0 <= a < |ok| ==> ok'[a] == ok[a];
      forall n | 0 <= n < k && n !in ok'
        ensures Physics.HasActiveGuardExcept(gs, its[n].tx, its[n].ty, its[n].guardIdx)
          || exists a :: 0 <= a < |occ'| && a < |ok'| && ok'[a] < n && occ'[a] == (its[n].tx, its[n].ty)
      {
        if n < k - 1 {
          RefusedIntentsConflict(its, gs, k - 1);
        } else {
          RefusedLast(its, gs, k);
        }
      }
    }
  }

  /** The last intent considered, when refused, conflicts. */
  lemma RefusedLast(its: seq<Intent>, gs: seq<Guard>, k: nat)
    requires 0 < k <= |its|
    requires k - 1 !in ApprovedUpTo(its, gs, k).1
    ensures var (occ, ok) := ApprovedUpTo(its, gs, k);
      Physics.HasActiveGuardExcept(gs, its[k - 1].tx, its[k - 1].ty, its[k - 1].guardIdx)
      || exists a :: 0 <= a < |occ| && a < |ok| && ok[a] < k - 1 && occ[a] == (its[k - 1].tx, its[k - 1].ty)
  {
    ApprovedTargetsAreFree(its, gs, k - 1);
    var (occ, ok) := ApprovedUpTo(its, gs, k - 1);
    var it := its[k - 1];
    if (it.tx, it.ty) in occ {
      var a :| 0 <= a < |occ| && occ[a] == (it.tx, it.ty);
      assert ok[a] < k - 1;
    }
  }

  /** Phase 2 in place of the source's two vectors. */
  method ApproveIntents(its: seq<Intent>, gs: seq<Guard>) returns (approved: seq<nat>)
    ensures approved == Approved(its, gs)
  {
    var occupied: seq<(nat, nat)> := [];
    approved := [];
    for k := 0 to |its|
      invariant (occupied, approved) == ApprovedUpTo(its, gs, k)
    {
      var it := its[k];
      var blockedByGuard := Physics.HasActiveGuardExcept(gs, it.tx, it.ty, it.guardIdx);
      if blockedByGuard {
        continue;
      }
      var blockedByIntent := (it.tx, it.ty) in occupied;
      if blockedByIntent {
        continue;
      }
      occupied := occupied + [(it.tx, it.ty)];
      approved := approved + [k];
    }
  }

  // ---- Phase 3: the approved steps are taken ----

  /** Guard `g` after taking the step of intent `it`: it stands on the
      target, faces the way it stepped and waits `rate` ticks. */
  function MovedGuard(g: Guard, it: Intent, rate: nat): Guard
  {
    g.(x := it.tx, y := it.ty, facing := Turned(g.facing, it.dx), moveCooldown := rate)
  }

  /** Every approved index names an intent, and every intent a guard. */
  predicate Fits(its: seq<Intent>, approved: seq<nat>, gs: seq<Guard>)
  {
    forall a :: 0 <= a < |approved| ==> approved[a] < |its| && its[approved[a]].guardIdx < |gs|
  }

  /** The guards after the first `k` approved steps. */
  function AppliedUpTo(gs: seq<Guard>, its: seq<Intent>, approved: seq<nat>, rate: nat, k: nat): (r: seq<Guard>)
    requires Fits(its, approved, gs) && k <= |approved|
    ensures |r| == |gs|
  {
    if k == 0 then gs
    else
      var prev := AppliedUpTo(gs, its, approved, rate, k - 1);
      var it := its[approved[k - 1]];
      prev[it.guardIdx := MovedGuard(prev[it.guardIdx], it, rate)]
  }

  /** When the approved steps belong to distinct guards, each approved guard
      takes exactly its own step from where it stood and every other guard
      is untouched. */
  lemma {:induction false} AppliedSteps(gs: seq<Guard>, its: seq<Intent>, approved: seq<nat>, rate: nat, k: nat)
    requires Fits(its, approved, gs) && k <= |approved|
    requires forall a, b :: 0 <= a < b < |approved| ==> its[approved[a]].guardIdx != its[approved[b]].guardIdx
    ensures forall a :: 0 <= a < k ==>
      AppliedUpTo(gs, its, approved, rate, k)[its[approved[a]].guardIdx]
        == MovedGuard(gs[its[approved[a]].guardIdx], its[approved[a]], rate)
    ensures forall i :: 0 <= i < |gs| && (forall a :: 0 <= a < k ==> its[approved[a]].guardIdx != i) ==>
      AppliedUpTo(gs, its, approved, rate, k)[i] == gs[i]
  {
    if k > 0 {
      AppliedSteps(gs, its, approved, rate, k - 1);
    }
  }

  /** Phase 3 in place. */
  method ApplyMoves(w: WorldState, its: seq<Intent>, approved: seq<nat>)
    requires Fits(its, approved, w.guards)
    modifies w
    ensures w.Fields() == old(w.Fields()).(guards := AppliedUpTo(old(w.guards), its, approved, old(w.speed.guardMoveRate), |approved|))
  {
    var gs := w.guards;
    var rate := w.speed.guardMoveRate;
    for a := 0 to |approved|
      invariant gs == AppliedUpTo(w.guards, its, approved, rate, a)
    {
      var it := its[approved[a]];
      var i := it.guardIdx;
      var g := gs[i].(x := it.tx, y := it.ty);
      if it.dx < 0 {
        g := g.(facing := Left);
      }
      if it.dx > 0 {
        g := g.(facing := Right);
      }
      g := g.(moveCooldown := rate);
      gs := gs[i := g];
    }
    w.guards := gs;
  }

  // ---- Phase 4: states are recomputed ----

  /** The guards after recomputing, in order, the states of guards
      `0 .. k-1`; dead and trapped guards keep theirs. */
  function StatesUpTo(m: Rules.MapView, hg: seq<seq<bool>>, gs: seq<Guard>, k: nat): (r: seq<Guard>)
    requires m.Valid() && k <= |gs|
    ensures |r| == |gs|
  {
    if k == 0 then gs
    else
      var prev := StatesUpTo(m, hg, gs, k - 1);
      var g := prev[k - 1];
      if Rules.IsSticky(g.state) then prev
      else prev[k - 1 := g.(state := Physics.ResolveState(m, hg, prev, g.x, g.y, g.state))]
  }

  /** `a` and `b` have the same trapped guards, at the same cells. */
  ghost predicate SameTraps(a: seq<Guard>, b: seq<Guard>)
  {
    |a| == |b|
    && forall j :: 0 <= j < |a| ==>
         (a[j].state == InHole <==> b[j].state == InHole)
         && (a[j].state == InHole ==> a[j].x == b[j].x && a[j].y == b[j].y)
  }

  /** Of the other guards, only the trapped ones matter to a state. */
  lemma TrapsDecideState(m: Rules.MapView, hg: seq<seq<bool>>, a: seq<Guard>, b: seq<Guard>, x: nat, y: nat, s: ActorState)
    requires m.Valid() && SameTraps(a, b)
    ensures Physics.ResolveState(m, hg, a, x, y, s) == Physics.ResolveState(m, hg, b, x, y, s)
  {
    if Physics.HasTrappedGuard(a, x, y + 1) {
      var j :| 0 <= j < |a| && a[j].x == x && a[j].y == y + 1 && a[j].state == InHole;
      assert b[j].x == x && b[j].y == y + 1 && b[j].state == InHole;
    }
    if Physics.HasTrappedGuard(b, x, y + 1) {
      var j :| 0 <= j < |b| && b[j].x == x && b[j].y == y + 1 && b[j].state == InHole;
      assert a[j].x == x && a[j].y == y + 1 && a[j].state == InHole;
    }
  }

  /** Recomputing states changes nothing but the states of free guards,
      keeps them free, and gives each the state its cell calls for, as if
      all guards were resolved at once. */
  lemma {:induction false} StatesResolved(m: Rules.MapView, hg: seq<seq<bool>>, gs: seq<Guard>, k: nat)
    requires m.Valid() && k <= |gs|
    ensures SameTraps(gs, StatesUpTo(m, hg, gs, k))
    ensures forall i :: 0 <= i < |gs| ==>
      StatesUpTo(m, hg, gs, k)[i] == gs[i].(state := StatesUpTo(m, hg, gs, k)[i].state)
    ensures forall i :: 0 <= i < |gs| && (k <= i || Rules.IsSticky(gs[i].state)) ==>
      StatesUpTo(m, hg, gs, k)[i] == gs[i]
    ensures forall i :: 0 <= i < k && !Rules.IsSticky(gs[i].state) ==>
      StatesUpTo(m, hg, gs, k)[i].state == Physics.ResolveState(m, hg, gs, gs[i].x, gs[i].y, gs[i].state)
  {
    if k > 0 {
      StatesResolved(m, hg, gs, k - 1);
      var prev := StatesUpTo(m, hg, gs, k - 1);
      var g := prev[k - 1];
      TrapsDecideState(m, hg, prev, gs, g.x, g.y, g.state);
    }
  }

  /** Phase 4 in place. */
  method ResolveGuardStates(w: WorldState)
    requires Shaped(w.Fields())
    modifies w
    ensures w.Fields() == old(w.Fields()).(guards := StatesUpTo(old(w.Map()), old(w.holeGrid), old(w.guards), |old(w.guards)|))
  {
    var m := w.Map();
    var gs := w.guards;
    for i := 0 to |gs|
      invariant gs == StatesUpTo(m, w.holeGrid, w.guards, i)
    {
      var g := gs[i];
      if Rules.IsSticky(g.state) {
        continue;
      }
      gs := gs[i := g.(state := Physics.ResolveState(m, w.holeGrid, gs, g.x, g.y, g.state))];
    }
    w.guards := gs;
  }

  // ---- Phase 5: touching guards separate ----

  /** Guards `a` and `b` are two different free guards at most one cell
      apart. */
  predicate Touch(gs: seq<Guard>, a: nat, b: nat)
    requires a < |gs| && b < |gs|
  {
    a != b && IsActive(gs[a]) && IsActive(gs[b])
    && Ai.Manhattan(gs[a].x, gs[a].y, gs[b].x, gs[b].y) <= 1
  }

  /** Guard `k` touches some other guard. */
  ghost predicate InContact(gs: seq<Guard>, k: nat)
    requires k < |gs|
  {
    exists p :: 0 <= p < |gs| && Touch(gs, k, p)
  }

  /** `g` after contact detection: a guard in contact whose separation
      timer has run out enters separation mode. */
  function Marked(g: Guard, contact: bool): Guard
  {
    if g.separationTimer == 0 && contact then g.(separationTimer := Ai.SEPARATION_TICKS) else g
  }

  /** The guards after contact detection. */
  ghost function Contacted(gs: seq<Guard>): seq<Guard>
  {
    seq(|gs|, k requires 0 <= k < |gs| => Marked(gs[k], InContact(gs, k)))
  }

  /** The pair (a, b), a < b, comes before (i, j) in the scan order. */
  predicate PairDone(a: nat, b: nat, i: nat, j: nat)
  {
    a < i || (a == i && b < j)
  }

  /** Guard `k` touches a guard in a pair scanned before (i, j). */
  ghost predicate ContactBefore(gs: seq<Guard>, k: nat, i: nat, j: nat)
    requires k < |gs|
  {
    exists p :: 0 <= p < |gs| && Touch(gs, k, p)
      && PairDone(if k < p then k else p, if k < p then p else k, i, j)
  }

  /** Scanning pair (i, j) adds exactly that pair's contact. */
  lemma ContactStep(gs: seq<Guard>, i: nat, j: nat, k: nat)
    requires i < j < |gs| && k < |gs|
    ensures ContactBefore(gs, k, i, j + 1) <==>
      ContactBefore(gs, k, i, j) || ((k == i || k == j) && Touch(gs, i, j))
  {
    if ContactBefore(gs, k, i, j + 1) && !ContactBefore(gs, k, i, j) {
      var p :| 0 <= p < |gs| && Touch(gs, k, p)
        && PairDone(if k < p then k else p, if k < p then p else k, i, j + 1);
      assert (k == i && p == j) || (k == j && p == i);
    }
    if k == i && Touch(gs, i, j) {
      assert PairDone(i, j, i, j + 1);
    }
    if k == j && Touch(gs, i, j) {
      assert Touch(gs, j, i) && PairDone(i, j, i, j + 1);
    }
  }

  /** A finished row adds nothing beyond the pairs that start with its
      guard. */
  lemma ContactRowDone(gs: seq<Guard>, i: nat)
    requires i < |gs|
    ensures forall k :: 0 <= k < |gs| ==>
      (ContactBefore(gs, k, i, |gs|) <==> ContactBefore(gs, k, i + 1, i + 2))
  {
  }

  /** The row of a guard that is not free adds nothing. */
  lemma ContactRowSkipped(gs: seq<Guard>, i: nat, next: nat)
    requires i < |gs| && next == i + 1 && !IsActive(gs[i])
    ensures forall k :: 0 <= k < |gs| ==>
      (ContactBefore(gs, k, i, next) <==> ContactBefore(gs, k, next, next + 1))
  {
  }

  /** Once every pair is scanned, contact is plain contact. */
  lemma ContactAllDone(gs: seq<Guard>)
    ensures forall k :: 0 <= k < |gs| ==> (ContactBefore(gs, k, |gs|, |gs| + 1) <==> InContact(gs, k))
  {
  }

  /** Phase 5 in place. */
  method DetectContacts(w: WorldState)
    modifies w
    ensures w.Fields() == old(w.Fields()).(guards := Contacted(old(w.guards)))
  {
    var gs := w.guards;
    ghost var orig := w.guards;
    var n := |gs|;
    for i := 0 to n
      invariant |gs| == n && w.Fields() == old(w.Fields())
      invariant forall k :: 0 <= k < n ==> gs[k] == Marked(orig[k], ContactBefore(orig, k, i, i + 1))
    {
      if !IsActive(gs[i]) {
        ContactRowSkipped(orig, i, i + 1);
        continue;
      }
      for j := i + 1 to n
        invariant |gs| == n && w.Fields() == old(w.Fields())
        invariant forall k :: 0 <= k < n ==> gs[k] == Marked(orig[k], ContactBefore(orig, k, i, j))
      {
        gs := ScanPair(gs, orig, i, j);
      }
      ContactRowDone(orig, i);
    }
    ContactAllDone(orig);
    assert gs == Contacted(orig);
    w.guards := gs;
  }

  /** The body of the inner scan: pair (i, j) in contact marks both. */
  method ScanPair(gs: seq<Guard>, ghost orig: seq<Guard>, i: nat, j: nat) returns (r: seq<Guard>)
    requires i < j < |gs| == |orig|
    requires forall k :: 0 <= k < |gs| ==> gs[k] == Marked(orig[k], ContactBefore(orig, k, i, j))
    ensures |r| == |gs|
    ensures forall k :: 0 <= k < |r| ==> r[k] == Marked(orig[k], ContactBefore(orig, k, i, j + 1))
  {
    r := gs;
    assert gs[i].x == orig[i].x && gs[i].y == orig[i].y && gs[i].state == orig[i].state;
    assert gs[j].x == orig[j].x && gs[j].y == orig[j].y && gs[j].state == orig[j].state;
    if IsActive(gs[i]) && IsActive(gs[j]) {
      var dist := Ai.Manhattan(gs[i].x, gs[i].y, gs[j].x, gs[j].y);
      if dist <= 1 {
        if r[i].separationTimer == 0 {
          r := r[i := r[i].(separationTimer := Ai.SEPARATION_TICKS)];
        }
        if r[j].separationTimer == 0 {
          r := r[j := r[j].(separationTimer := Ai.SEPARATION_TICKS)];
        }
      }
    }
    forall k | 0 <= k < |r|
      ensures r[k] == Marked(orig[k], ContactBefore(orig, k, i, j + 1))
    {
      ContactStep(orig, i, j, k);
    }
  }

  // ---- The whole pass ----

  /** The guards after phases 0 to 3: timers counted down and the approved
      steps taken. */
  ghost function Walked(f: WorldFields, choices: seq<(int, int)>): (r: seq<Guard>)
    requires Shaped(f) && |choices| == |f.guards|
    ensures |r| == |f.guards|
  {
    var m := MapOf(f);
    var g0 := SepTicked(f.guards);
    var g1 := CooledAll(g0);
    var its := Intents(m, f.holeGrid, g0, choices);
    IntentsAreFiled(m, f.holeGrid, g0, choices);
    ApprovedTargetsAreFree(its, g1, |its|);
    AppliedUpTo(g1, its, Approved(its, g1), f.speed.guardMoveRate, |Approved(its, g1)|)
  }

  /** The world after `resolve_guard_movement`, given the AI's choices. */
  ghost function GuardsMoved(f: WorldFields, choices: seq<(int, int)>): (r: WorldFields)
    requires Shaped(f) && |choices| == |f.guards|
  {
    var g3 := Walked(f, choices);
    f.(guards := Contacted(StatesUpTo(MapOf(f), f.holeGrid, g3, |g3|)))
  }

  /** The steps `choices` are ones the AI may answer in the pass over `f`:
      the AI sees the map and holes of `f`, the guards with their separation
      timers counted down, and the player where `f` has it. */
  ghost predicate PassChoices(f: WorldFields, choices: seq<(int, int)>)
    requires Shaped(f)
  {
    AiChose(MapOf(f), f.holeGrid, SepTicked(f.guards), f.player.x, f.player.y, choices)
  }

  /** `resolve_guard_movement` in place. Returns the AI's choice for every
      guard. */
  method ResolveGuardMovement(w: WorldState) returns (choices: seq<(int, int)>)
    requires Shaped(w.Fields()) && GuardsOnMap(w.width, w.height, w.guards)
    modifies w
    ensures |choices| == |old(w.guards)|
    ensures forall i :: 0 <= i < |choices| ==> choices[i] == (0, 0) || choices[i] in Ai.DIRS
    ensures PassChoices(old(w.Fields()), choices)
    ensures w.Fields() == GuardsMoved(old(w.Fields()), choices)
  {
    ghost var f := w.Fields();
    TickSeparation(w);
    assert forall i :: 0 <= i < |w.guards| ==> w.guards[i].x == f.guards[i].x && w.guards[i].y == f.guards[i].y;
    assert GuardsOnMap(w.width, w.height, w.guards) by {
      forall i | 0 <= i < |w.guards|
        ensures GuardOnMap(w.width, w.height, w.guards[i])
      {
        assert GuardOnMap(f.width, f.height, f.guards[i]);
      }
    }
    var intents;
    intents, choices := CollectIntents(w);
    var approved := ApproveIntents(intents, w.guards);
    IntentsAreFiled(MapOf(f), f.holeGrid, SepTicked(f.guards), choices);
    ApprovedTargetsAreFree(intents, w.guards, |intents|);
    ApplyMoves(w, intents, approved);
    assert w.guards == Walked(f, choices);
    ResolveGuardStates(w);
    DetectContacts(w);
  }

  // ---- What the pass promises ----

  /** `a` and `b` have their guards at the same cells in the same states. */
  ghost predicate SamePlaces(a: seq<Guard>, b: seq<Guard>)
  {
    |a| == |b|
    && forall j :: 0 <= j < |a| ==> a[j].x == b[j].x && a[j].y == b[j].y && a[j].state == b[j].state
  }

  /** Only cells and states decide whether a guard blocks a cell. */
  lemma PlacesDecideBlocking(a: seq<Guard>, b: seq<Guard>, x: nat, y: nat, skip: nat)
    requires SamePlaces(a, b)
    ensures Physics.HasActiveGuardExcept(a, x, y, skip) == Physics.HasActiveGuardExcept(b, x, y, skip)
  {
    if Physics.HasActiveGuardExcept(a, x, y, skip) {
      var j :| 0 <= j < |a| && j != skip && a[j].x == x && a[j].y == y && a[j].state != Dead && a[j].state != InHole;
      assert b[j].x == x && b[j].y == y && b[j].state == a[j].state;
    }
    if Physics.HasActiveGuardExcept(b, x, y, skip) {
      var j :| 0 <= j < |b| && j != skip && b[j].x == x && b[j].y == y && b[j].state != Dead && b[j].state != InHole;
      assert a[j].x == x && a[j].y == y && a[j].state == b[j].state;
    }
  }

  /** Approved intents belong to distinct guards, in increasing order. */
  lemma ApprovedGuardsIncrease(m: Rules.MapView, hg: seq<seq<bool>>, gs: seq<Guard>, choices: seq<(int, int)>, hs: seq<Guard>)
    requires m.Valid() && |choices| == |gs|
    ensures var its := Intents(m, hg, gs, choices);
      Fits(its, Approved(its, hs), gs)
      && forall a, b :: 0 <= a < b < |Approved(its, hs)| ==>
           its[Approved(its, hs)[a]].guardIdx < its[Approved(its, hs)[b]].guardIdx
  {
    var its := Intents(m, hg, gs, choices);
    IntentsAreFiled(m, hg, gs, choices);
    ApprovedTargetsAreFree(its, hs, |its|);
  }

  /** The intents and approvals of the pass over `f`. */
  function PassIntents(f: WorldFields, choices: seq<(int, int)>): seq<Intent>
    requires Shaped(f) && |choices| == |f.guards|
  {
    Intents(MapOf(f), f.holeGrid, SepTicked(f.guards), choices)
  }

  function PassApproved(f: WorldFields, choices: seq<(int, int)>): seq<nat>
    requires Shaped(f) && |choices| == |f.guards|
  {
    Approved(PassIntents(f, choices), CooledAll(SepTicked(f.guards)))
  }

  /** The approved step of guard `i`, if it has one. */
  ghost function ApprovedStep(f: WorldFields, choices: seq<(int, int)>, i: nat): Option<Intent>
    requires Shaped(f) && |choices| == |f.guards|
  {
    var its := PassIntents(f, choices);
    var ok := PassApproved(f, choices);
    if exists a :: 0 <= a < |ok| && ok[a] < |its| && its[ok[a]].guardIdx == i then
      var a :| 0 <= a < |ok| && ok[a] < |its| && its[ok[a]].guardIdx == i;
      Some(its[ok[a]])
    else None
  }

  /** Guard `i` after phase 3 is the guard after phase 1, moved by its
      approved step if it has one. */
  lemma WalkedByStep(f: WorldFields, choices: seq<(int, int)>, i: nat)
    requires Shaped(f) && |choices| == |f.guards| && i < |f.guards|
    ensures Walked(f, choices)[i] ==
      match ApprovedStep(f, choices, i)
      case Some(it) => MovedGuard(CooledDown(SepTicked(f.guards)[i]), it, f.speed.guardMoveRate)
      case None => CooledDown(SepTicked(f.guards)[i])
  {
    var g1 := CooledAll(SepTicked(f.guards));
    var its := PassIntents(f, choices);
    var ok := PassApproved(f, choices);
    ApprovedGuardsIncrease(MapOf(f), f.holeGrid, SepTicked(f.guards), choices, g1);
    AppliedSteps(g1, its, ok, f.speed.guardMoveRate, |ok|);
  }

  /** An approved step is the intent the guard filed, onto a cell no other
      free guard held. */
  lemma ApprovedStepIsFiled(f: WorldFields, choices: seq<(int, int)>, i: nat)
    requires Shaped(f) && |choices| == |f.guards| && i < |f.guards|
    requires ApprovedStep(f, choices, i).Some?
    ensures IntentOf(MapOf(f), f.holeGrid, i, f.guards[i], choices[i]) == ApprovedStep(f, choices, i)
    ensures !Physics.HasActiveGuardExcept(f.guards, ApprovedStep(f, choices, i).value.tx, ApprovedStep(f, choices, i).value.ty, i)
  {
    var g0 := SepTicked(f.guards);
    var g1 := CooledAll(g0);
    var its := PassIntents(f, choices);
    var ok := PassApproved(f, choices);
    IntentsAreFiled(MapOf(f), f.holeGrid, g0, choices);
    ApprovedTargetsAreFree(its, g1, |its|);
    var it := ApprovedStep(f, choices, i).value;
    assert IntentOf(MapOf(f), f.holeGrid, i, g0[i], choices[i]) == Some(it);
    assert SamePlaces(g1, f.guards);
    PlacesDecideBlocking(g1, f.guards, it.tx, it.ty, i);
  }

  /** What phases 0 to 3 do to guard `i`: its separation timer counts down
      and its state is kept; it either stays on its cell, with only its move
      cooldown counted down, or takes the step the AI chose, onto an
      in-bounds passable cell no other free guard held, turning toward the
      step and restarting its move cooldown. */
  lemma WalkedStep(f: WorldFields, choices: seq<(int, int)>, i: nat)
    requires Shaped(f) && |choices| == |f.guards| && i < |f.guards|
    ensures var g := f.guards[i]; var r := Walked(f, choices)[i];
      r == g.(x := r.x, y := r.y, facing := r.facing, moveCooldown := r.moveCooldown,
              separationTimer := Dec(g.separationTimer))
      && ((r.x, r.y) == (g.x, g.y) ==> r.facing == g.facing && r.moveCooldown == CooledDown(g).moveCooldown)
      && ((r.x, r.y) != (g.x, g.y) ==>
            IntentOf(MapOf(f), f.holeGrid, i, g, choices[i]) == Some(Intent(i, r.x, r.y, choices[i].0))
            && !Physics.HasActiveGuardExcept(f.guards, r.x, r.y, i)
            && r.facing == Turned(g.facing, choices[i].0) && r.moveCooldown == f.speed.guardMoveRate)
  {
    WalkedByStep(f, choices, i);
    if ApprovedStep(f, choices, i).Some? {
      ApprovedStepIsFiled(f, choices, i);
    }
  }

  /** Every approved intent is its guard's approved step. */
  lemma ApprovedStepOf(f: WorldFields, choices: seq<(int, int)>, a: nat)
    requires Shaped(f) && |choices| == |f.guards| && a < |PassApproved(f, choices)|
    ensures PassApproved(f, choices)[a] < |PassIntents(f, choices)|
    ensures var it := PassIntents(f, choices)[PassApproved(f, choices)[a]];
      it.guardIdx < |f.guards| && ApprovedStep(f, choices, it.guardIdx) == Some(it)
  {
    var g0 := SepTicked(f.guards);
    var its := PassIntents(f, choices);
    var ok := PassApproved(f, choices);
    ApprovedGuardsIncrease(MapOf(f), f.holeGrid, g0, choices, CooledAll(g0));
    var i := its[ok[a]].guardIdx;
    var b :| 0 <= b < |ok| && ok[b] < |its| && its[ok[b]].guardIdx == i && ApprovedStep(f, choices, i) == Some(its[ok[b]]);
    assert b == a;
  }

  /** No two guards' approved steps share a target cell. */
  lemma ApprovedStepsDiffer(f: WorldFields, choices: seq<(int, int)>, i: nat, j: nat)
    requires Shaped(f) && |choices| == |f.guards| && i != j
    requires ApprovedStep(f, choices, i).Some? && ApprovedStep(f, choices, j).Some?
    ensures (ApprovedStep(f, choices, i).value.tx, ApprovedStep(f, choices, i).value.ty)
         != (ApprovedStep(f, choices, j).value.tx, ApprovedStep(f, choices, j).value.ty)
  {
    var g1 := CooledAll(SepTicked(f.guards));
    var its := PassIntents(f, choices);
    var ok := PassApproved(f, choices);
    var a :| 0 <= a < |ok| && ok[a] < |its| && its[ok[a]].guardIdx == i && ApprovedStep(f, choices, i) == Some(its[ok[a]]);
    var b :| 0 <= b < |ok| && ok[b] < |its| && its[ok[b]].guardIdx == j && ApprovedStep(f, choices, j) == Some(its[ok[b]]);
    ApprovedTargetsAreFree(its, g1, |its|);
    ApprovedTargetsDiffer(its, g1, |its|);
    assert a != b;
  }

  /** Two guards that both moved in phase 3 did not move onto the same
      cell. */
  lemma WalkedTargetsDiffer(f: WorldFields, choices: seq<(int, int)>, i: nat, j: nat)
    requires Shaped(f) && |choices| == |f.guards| && i < |f.guards| && j < |f.guards| && i != j
    requires (Walked(f, choices)[i].x, Walked(f, choices)[i].y) != (f.guards[i].x, f.guards[i].y)
    requires (Walked(f, choices)[j].x, Walked(f, choices)[j].y) != (f.guards[j].x, f.guards[j].y)
    ensures (Walked(f, choices)[i].x, Walked(f, choices)[i].y) != (Walked(f, choices)[j].x, Walked(f, choices)[j].y)
  {
    WalkedByStep(f, choices, i);
    WalkedByStep(f, choices, j);
    ApprovedStepsDiffer(f, choices, i, j);
  }

  /** A guard's filed intent is in the pass's list. */
  lemma FiledAt(f: WorldFields, choices: seq<(int, int)>, i: nat) returns (n: nat)
    requires Shaped(f) && |choices| == |f.guards| && i < |f.guards|
    requires IntentOf(MapOf(f), f.holeGrid, i, f.guards[i], choices[i]).Some?
    ensures n < |PassIntents(f, choices)|
    ensures PassIntents(f, choices)[n] == IntentOf(MapOf(f), f.holeGrid, i, f.guards[i], choices[i]).value
  {
    var g0 := SepTicked(f.guards);
    assert IntentOf(MapOf(f), f.holeGrid, i, g0[i], choices[i]) == IntentOf(MapOf(f), f.holeGrid, i, f.guards[i], choices[i]);
    FiledIntentsAreListed(MapOf(f), f.holeGrid, g0, choices, i);
    n :| 0 <= n < |PassIntents(f, choices)| && PassIntents(f, choices)[n] == IntentOf(MapOf(f), f.holeGrid, i, f.guards[i], choices[i]).value;
  }

  /** The guard of an approved intent ends phase 3 on its target. */
  lemma ApprovedIntentTaken(f: WorldFields, choices: seq<(int, int)>, a: nat)
    requires Shaped(f) && |choices| == |f.guards| && a < |PassApproved(f, choices)|
    ensures PassApproved(f, choices)[a] < |PassIntents(f, choices)|
    ensures var it := PassIntents(f, choices)[PassApproved(f, choices)[a]];
      it.guardIdx < |f.guards| && ApprovedStep(f, choices, it.guardIdx).Some?
      && (Walked(f, choices)[it.guardIdx].x, Walked(f, choices)[it.guardIdx].y) == (it.tx, it.ty)
  {
    ApprovedStepOf(f, choices, a);
    WalkedByStep(f, choices, PassIntents(f, choices)[PassApproved(f, choices)[a]].guardIdx);
  }

  /** An intent refused although no free guard held its target lost to an
      earlier approved intent for the same cell. */
  lemma RefusedLosesToEarlier(f: WorldFields, choices: seq<(int, int)>, n: nat) returns (a: nat)
    requires Shaped(f) && |choices| == |f.guards| && n < |PassIntents(f, choices)|
    requires n !in PassApproved(f, choices)
    requires var it := PassIntents(f, choices)[n];
      !Physics.HasActiveGuardExcept(f.guards, it.tx, it.ty, it.guardIdx)
    ensures a < |PassApproved(f, choices)| && PassApproved(f, choices)[a] < n
    ensures var it := PassIntents(f, choices)[n];
      var other := PassIntents(f, choices)[PassApproved(f, choices)[a]];
      (other.tx, other.ty) == (it.tx, it.ty)
  {
    var g1 := CooledAll(SepTicked(f.guards));
    var its := PassIntents(f, choices);
    var ok := PassApproved(f, choices);
    RefusedIntentsConflict(its, g1, |its|);
    ApprovedTargetsAreFree(its, g1, |its|);
    assert SamePlaces(g1, f.guards);
    PlacesDecideBlocking(g1, f.guards, its[n].tx, its[n].ty, its[n].guardIdx);
    a :| 0 <= a < |ok| && ok[a] < n && ApprovedUpTo(its, g1, |its|).0[a] == (its[n].tx, its[n].ty);
  }

  /** First come, first served: a guard whose step is legal and whose
      target no other free guard holds takes the step, unless a guard
      earlier in the list took a step onto the same cell. */
  lemma WalkedFirstWins(f: WorldFields, choices: seq<(int, int)>, i: nat)
    requires Shaped(f) && |choices| == |f.guards| && i < |f.guards|
    requires IntentOf(MapOf(f), f.holeGrid, i, f.guards[i], choices[i]).Some?
    requires var it := IntentOf(MapOf(f), f.holeGrid, i, f.guards[i], choices[i]).value;
      !Physics.HasActiveGuardExcept(f.guards, it.tx, it.ty, i)
    ensures var it := IntentOf(MapOf(f), f.holeGrid, i, f.guards[i], choices[i]).value;
      (Walked(f, choices)[i].x, Walked(f, choices)[i].y) == (it.tx, it.ty)
      || exists j :: 0 <= j < i && ApprovedStep(f, choices, j).Some?
           && (Walked(f, choices)[j].x, Walked(f, choices)[j].y) == (it.tx, it.ty)
  {
    var its := PassIntents(f, choices);
    var ok := PassApproved(f, choices);
    var n := FiledAt(f, choices, i);
    if n in ok {
      var a :| 0 <= a < |ok| && ok[a] == n;
      ApprovedIntentTaken(f, choices, a);
    } else {
      var a := RefusedLosesToEarlier(f, choices, n);
      ApprovedIntentTaken(f, choices, a);
      IntentsAreFiled(MapOf(f), f.holeGrid, SepTicked(f.guards), choices);
      assert its[ok[a]].guardIdx < i;
    }
  }

  /** Contact detection moves no guard and changes no state, so it does not
      change who touches whom. */
  lemma ContactedKeepsPlaces(gs: seq<Guard>)
    ensures SamePlaces(gs, Contacted(gs))
    ensures forall k :: 0 <= k < |gs| ==> (InContact(Contacted(gs), k) <==> InContact(gs, k))
  {
    var r := Contacted(gs);
    forall k, p | 0 <= k < |gs| && 0 <= p < |gs|
      ensures Touch(r, k, p) == Touch(gs, k, p)
    {
    }
  }

  /** Phases 0 to 3 move no dead or trapped guard and change no state. */
  lemma WalkedKeepsTraps(f: WorldFields, choices: seq<(int, int)>)
    requires Shaped(f) && |choices| == |f.guards|
    ensures SameTraps(f.guards, Walked(f, choices))
    ensures forall j :: 0 <= j < |f.guards| ==> Walked(f, choices)[j].state == f.guards[j].state
  {
    forall j | 0 <= j < |f.guards|
      ensures Walked(f, choices)[j].state == f.guards[j].state
      ensures f.guards[j].state == InHole ==>
        Walked(f, choices)[j].x == f.guards[j].x && Walked(f, choices)[j].y == f.guards[j].y
    {
      WalkedStep(f, choices, j);
    }
  }

  /** What the whole pass does to guard `i`, beyond what phases 0 to 3 do
      to it (`WalkedStep`): a dead or trapped guard keeps its state; a free
      guard takes the state its cell calls for; and a guard whose separation
      timer has run out enters separation mode exactly when it ends the tick
      touching another free guard. */
  lemma GuardMoveOutcome(f: WorldFields, choices: seq<(int, int)>, i: nat)
    requires Shaped(f) && |choices| == |f.guards| && i < |f.guards|
    ensures var g := f.guards[i]; var gs := GuardsMoved(f, choices).guards;
      |gs| == |f.guards|
      && gs[i] == Walked(f, choices)[i].(state := gs[i].state, separationTimer := gs[i].separationTimer)
      && (Rules.IsSticky(g.state) ==> gs[i].state == g.state)
      && (!Rules.IsSticky(g.state) ==>
            gs[i].state == Physics.ResolveState(MapOf(f), f.holeGrid, f.guards, gs[i].x, gs[i].y, g.state))
      && gs[i].separationTimer ==
           (if Dec(g.separationTimer) == 0 && InContact(gs, i) then Ai.SEPARATION_TICKS else Dec(g.separationTimer))
  {
    var w3 := Walked(f, choices);
    WalkedKeepsTraps(f, choices);
    WalkedStep(f, choices, i);
    StatesResolved(MapOf(f), f.holeGrid, w3, |w3|);
    TrapsDecideState(MapOf(f), f.holeGrid, w3, f.guards, w3[i].x, w3[i].y, f.guards[i].state);
    ContactedKeepsPlaces(StatesUpTo(MapOf(f), f.holeGrid, w3, |w3|));
  }

  /** No two free guards share a cell. */
  ghost predicate Apart(gs: seq<Guard>)
  {
    forall a, b :: 0 <= a < b < |gs| && IsActive(gs[a]) && IsActive(gs[b]) ==>
      (gs[a].x, gs[a].y) != (gs[b].x, gs[b].y)
  }

  /** Guard movement never stacks two free guards on one cell: if none
      shared a cell before the pass, none share one after it. */
  lemma GuardMovesKeepApart(f: WorldFields, choices: seq<(int, int)>)
    requires Shaped(f) && |choices| == |f.guards| && Apart(f.guards)
    ensures Apart(GuardsMoved(f, choices).guards)
  {
    var gs := GuardsMoved(f, choices).guards;
    forall a, b | 0 <= a < b < |gs| && IsActive(gs[a]) && IsActive(gs[b])
      ensures (gs[a].x, gs[a].y) != (gs[b].x, gs[b].y)
    {
      GuardMoveOutcome(f, choices, a);
      GuardMoveOutcome(f, choices, b);
      WalkedStep(f, choices, a);
      WalkedStep(f, choices, b);
      var fa := f.guards[a];
      var fb := f.guards[b];
      var movedA := (gs[a].x, gs[a].y) != (fa.x, fa.y);
      var movedB := (gs[b].x, gs[b].y) != (fb.x, fb.y);
      assert IsActive(fa) && IsActive(fb);
      if movedA && movedB {
        WalkedTargetsDiffer(f, choices, a, b);
      } else if movedA {
        assert (gs[b].x, gs[b].y) == (fb.x, fb.y);
        assert !Physics.HasActiveGuardExcept(f.guards, gs[a].x, gs[a].y, a);
      } else if movedB {
        assert (gs[a].x, gs[a].y) == (fa.x, fa.y);
        assert !Physics.HasActiveGuardExcept(f.guards, gs[b].x, gs[b].y, b);
      }
    }
  }

  /** Guard movement keeps the world invariant and the gold guards carry:
      guards stay on the map and no guard gains or loses gold. */
  lemma GuardsMovedKeepsInv(f: WorldFields, choices: seq<(int, int)>)
    requires Inv(f) && |choices| == |f.guards|
    ensures Inv(GuardsMoved(f, choices))
    ensures Carriers(GuardsMoved(f, choices).guards) == Carriers(f.guards)
  {
    var gs := GuardsMoved(f, choices).guards;
    forall i | 0 <= i < |gs|
      ensures GuardOnMap(f.width, f.height, gs[i])
      ensures NoNewGold(f.guards[i], gs[i]) && NoNewGold(gs[i], f.guards[i])
    {
      GuardMoveOutcome(f, choices, i);
      WalkedStep(f, choices, i);
      assert GuardOnMap(f.width, f.height, f.guards[i]);
    }
    CarriersMonotone(f.guards, gs);
    CarriersMonotone(gs, f.guards);
    GuardsReplacedKeepsInv(f, gs);
  }
}
