/** Guard AI: a bounded breadth-first chase toward the player, a greedy
    step-away rule for guards that crowd each other, and a direct fallback. */
module Ai {
  import opened Common
  import opened Entity
  import Rules
  import Physics

  /** Maximum number of queue entries the search expands. */
  const BFS_MAX_DEPTH: nat := 300
  /** The four unit steps in the order the AI tries them: left, right, up, down. */
  const DIRS: seq<(int, int)> := [(-1, 0), (1, 0), (0, -1), (0, 1)]
  /** Ticks a guard spends in separation mode after touching another guard. */
  const SEPARATION_TICKS: nat := 10
  const I32_MAX: int := 0x7fff_ffff
  const I32_MIN: int := -0x8000_0000

  /** What the AI sees: terrain, open holes and the guards. */
  datatype Ctx = Ctx(m: Rules.MapView, hg: seq<seq<bool>>, guards: seq<Guard>)
  {
    ghost predicate Valid()
    {
      m.Valid()
    }
  }

  function Terrain(c: Ctx, x: nat, y: nat): Physics.TerrainCell
    requires c.Valid()
  {
    Physics.TerrainAt(c.m, c.hg, x, y)
  }

  function Support(c: Ctx, x: nat, y: nat): bool
    requires c.Valid()
  {
    Physics.HasSupport(c.m, c.hg, c.guards, x, y)
  }

  function CanEnter(c: Ctx, x: nat, y: nat): bool
    requires c.Valid()
  {
    Terrain(c, x, y).passable
  }

  /** `ai::try_move`: the neighbour `(x + dx, y + dy)` if a guard at (x, y)
      may step there, None otherwise. What "may" means is stated by
      `TryMoveLegality`. */
  function TryMove(c: Ctx, x: nat, y: nat, dx: int, dy: int): (r: Option<(nat, nat)>)
    requires c.Valid()
    ensures r.Some? ==> r.value.0 == x + dx && r.value.1 == y + dy
    ensures r.Some? ==> r.value.0 < c.m.width && r.value.1 < c.m.height
  {
    var nx := x + dx;
    var ny := y + dy;
    if nx < 0 || ny < 0 then None
    else if nx >= c.m.width || ny >= c.m.height then None
    else if !CanEnter(c, nx, ny) then None
    else
      var here := Terrain(c, x, y);
      if dy < 0 && !here.climbable then None
      else if dy > 0 && y + 1 < c.m.height && !here.climbable && !here.hangable
              && !Terrain(c, x, y + 1).climbable && Support(c, x, y) then None
      else if dx != 0 && !Support(c, x, y) then None
      else Some((nx, ny))
  }

  /** A step is allowed exactly when it lands on an in-bounds passable cell,
      going up starts from a ladder, a sideways step starts from a supported
      cell, and going down from a supported cell that is neither ladder nor
      rope lands on a ladder. */
  lemma TryMoveLegality(c: Ctx, x: nat, y: nat, dx: int, dy: int)
    requires c.Valid()
    ensures TryMove(c, x, y, dx, dy).Some? <==>
      0 <= x + dx < c.m.width && 0 <= y + dy < c.m.height
      && CanEnter(c, x + dx, y + dy)
      && (dy < 0 ==> Terrain(c, x, y).climbable)
      && (dy > 0 && Support(c, x, y) && !Terrain(c, x, y).climbable && !Terrain(c, x, y).hangable
          ==> Terrain(c, x, y + 1).climbable)
      && (dx != 0 ==> Support(c, x, y))
  {
  }

  function Abs(v: int): nat
  {
    if v < 0 then -v else v
  }

  /** `ai::manhattan`. */
  function Manhattan(x1: int, y1: int, x2: int, y2: int): (d: nat)
    ensures d == 0 <==> x1 == x2 && y1 == y2
    ensures d == Abs(x2 - x1) + Abs(y2 - y1)
  {
    Abs(x1 - x2) + Abs(y1 - y2)
  }

  /** One unit step changes a Manhattan distance by exactly one. */
  lemma UnitStepChangesDistanceByOne(x: int, y: int, d: (int, int), ax: int, ay: int)
    requires d in DIRS
    ensures Manhattan(x + d.0, y + d.1, ax, ay) == Manhattan(x, y, ax, ay) + 1
         || Manhattan(x + d.0, y + d.1, ax, ay) + 1 == Manhattan(x, y, ax, ay)
  {
  }

  function Sign(v: int): (s: int)
    ensures s == 0 <==> v == 0
    ensures s > 0 <==> v > 0
  {
    if v > 0 then 1 else if v < 0 then -1 else 0
  }

  /** `ai::fallback_chase`: a sideways step toward the player into an
      enterable cell, else a vertical step toward the player from a ladder,
      else stand still. Whatever it returns brings the guard one step closer
      to the player. */
  function FallbackChase(c: Ctx, gx: nat, gy: nat, px: nat, py: nat): (d: (int, int))
    requires c.Valid()
    ensures d == (0, 0) || d in DIRS
    ensures px != gx && CanEnter(c, gx + Sign(px - gx), gy) ==> d == (Sign(px - gx), 0)
    ensures !(px != gx && CanEnter(c, gx + Sign(px - gx), gy))
            && Terrain(c, gx, gy).climbable && py != gy && CanEnter(c, gx, gy + Sign(py - gy))
            ==> d == (0, Sign(py - gy))
    ensures d == (0, 0) <==>
      !(px != gx && CanEnter(c, gx + Sign(px - gx), gy))
      && !(Terrain(c, gx, gy).climbable && py != gy && CanEnter(c, gx, gy + Sign(py - gy)))
    ensures d.1 != 0 ==>
      d.0 == 0 && d.1 == Sign(py - gy) && Terrain(c, gx, gy).climbable && CanEnter(c, gx, gy + d.1)
    ensures d != (0, 0) ==> Manhattan(gx + d.0, gy + d.1, px, py) + 1 == Manhattan(gx, gy, px, py)
  {
    var dx := Sign(px - gx);
    if dx != 0 && gx + dx < c.m.width && CanEnter(c, gx + dx, gy) then (dx, 0)
    else if Terrain(c, gx, gy).climbable then
      var dy := Sign(py - gy);
      if dy != 0 && gy + dy < c.m.height && CanEnter(c, gx, gy + dy) then (0, dy)
      else (0, 0)
    else (0, 0)
  }

  /** A search queue entry: a cell and the first step that led to it. */
  datatype Entry = Entry(x: nat, y: nat, fdx: int, fdy: int)

  /** Shape of the search state: every queued cell is in bounds, distinct
      from the start and from every other queued cell, and marked visited;
      its first step is a legal move from the start. */
  ghost predicate SearchInvariant(c: Ctx, gx: nat, gy: nat, visited: seq<seq<bool>>, queue: seq<Entry>)
    requires c.Valid()
  {
    IsGrid(visited, c.m.width, c.m.height) && gx < c.m.width && gy < c.m.height
    && visited[gy][gx]
    && (forall i :: 0 <= i < |queue| ==>
          queue[i].x < c.m.width && queue[i].y < c.m.height && visited[queue[i].y][queue[i].x]
          && (queue[i].x, queue[i].y) != (gx, gy)
          && (queue[i].fdx, queue[i].fdy) in DIRS
          && TryMove(c, gx, gy, queue[i].fdx, queue[i].fdy).Some?)
    && (forall i, j :: 0 <= i < j < |queue| ==> (queue[i].x, queue[i].y) != (queue[j].x, queue[j].y))
  }

  /** Pushing a not-yet-visited in-bounds cell, with a legal first step,
      and marking it keeps the search invariant. */
  lemma PushKeepsInvariant(c: Ctx, gx: nat, gy: nat, visited: seq<seq<bool>>, queue: seq<Entry>, e: Entry)
    requires c.Valid() && SearchInvariant(c, gx, gy, visited, queue)
    requires e.x < c.m.width && e.y < c.m.height && !visited[e.y][e.x]
    requires (e.fdx, e.fdy) in DIRS && TryMove(c, gx, gy, e.fdx, e.fdy).Some?
    ensures SearchInvariant(c, gx, gy, SetCell(visited, e.x, e.y, true), queue + [e])
  {
    var v' := SetCell(visited, e.x, e.y, true);
    var q' := queue + [e];
    forall i | 0 <= i < |q'|
      ensures q'[i].x < c.m.width && q'[i].y < c.m.height && v'[q'[i].y][q'[i].x]
    {
      if i < |queue| {
        assert q'[i] == queue[i];
      }
    }
  }

  /** The opening of `ai::find_direction`: try the four first steps from the
      guard's cell. A first step that lands on the player is returned at once;
      every other new cell is marked and queued with itself as first step. */
  method SeedSearch(c: Ctx, gx: nat, gy: nat, px: nat, py: nat)
    returns (hit: Option<(int, int)>, visited: seq<seq<bool>>, queue: seq<Entry>)
    requires c.Valid() && gx < c.m.width && gy < c.m.height
    ensures hit.Some? ==> hit.value in DIRS && TryMove(c, gx, gy, hit.value.0, hit.value.1) == Some((px, py))
    ensures hit.None? ==> SearchInvariant(c, gx, gy, visited, queue)
  {
    visited := seq(c.m.height, _ => seq(c.m.width, _ => false));
    visited := SetCell(visited, gx, gy, true);
    queue := [];
    for k := 0 to 4
      invariant SearchInvariant(c, gx, gy, visited, queue)
    {
      var dir := DIRS[k];
      var next := TryMove(c, gx, gy, dir.0, dir.1);
      if next.Some? {
        var (nx, ny) := next.value;
        if nx == px && ny == py {
          return Some(dir), visited, queue;
        }
        if !visited[ny][nx] {
          PushKeepsInvariant(c, gx, gy, visited, queue, Entry(nx, ny, dir.0, dir.1));
          visited := SetCell(visited, nx, ny, true);
          queue := queue + [Entry(nx, ny, dir.0, dir.1)];
        }
      }
    }
    hit := None;
  }

  /** One expansion of the search loop of `ai::find_direction`. From a cell
      without support only the cell straight below is tried; otherwise every
      legal step. A new cell that is the player's ends the search; other new
      cells are marked and queued with the popped entry's first step. */
  method ExpandEntry(c: Ctx, gx: nat, gy: nat, px: nat, py: nat,
                     visited: seq<seq<bool>>, queue: seq<Entry>, e: Entry)
    returns (hit: bool, visited': seq<seq<bool>>, queue': seq<Entry>)
    requires c.Valid() && SearchInvariant(c, gx, gy, visited, queue)
    requires e.x < c.m.width && e.y < c.m.height
    requires (e.fdx, e.fdy) in DIRS && TryMove(c, gx, gy, e.fdx, e.fdy).Some?
    ensures SearchInvariant(c, gx, gy, visited', queue')
    ensures |queue| <= |queue'| && queue'[..|queue|] == queue
    ensures forall i :: |queue| <= i < |queue'| ==> queue'[i].fdx == e.fdx && queue'[i].fdy == e.fdy
    ensures !Support(c, e.x, e.y) ==> |queue'| <= |queue| + 1
    ensures !Support(c, e.x, e.y) && |queue'| == |queue| + 1 ==>
      queue'[|queue|] == Entry(e.x, e.y + 1, e.fdx, e.fdy)
    ensures Support(c, e.x, e.y) ==> forall i :: |queue| <= i < |queue'| ==>
      exists k :: 0 <= k < 4 && TryMove(c, e.x, e.y, DIRS[k].0, DIRS[k].1) == Some((queue'[i].x, queue'[i].y))
    ensures hit && !Support(c, e.x, e.y) ==> e.x == px && e.y + 1 == py && CanEnter(c, px, py)
    ensures hit && Support(c, e.x, e.y) ==>
      exists k :: 0 <= k < 4 && TryMove(c, e.x, e.y, DIRS[k].0, DIRS[k].1) == Some((px, py))
  {
    visited', queue' := visited, queue;
    if !Support(c, e.x, e.y) {
      if e.y + 1 < c.m.height && CanEnter(c, e.x, e.y + 1) && !visited[e.y + 1][e.x] {
        if e.x == px && e.y + 1 == py {
          return true, visited', queue';
        }
        PushKeepsInvariant(c, gx, gy, visited, queue, Entry(e.x, e.y + 1, e.fdx, e.fdy));
        visited' := SetCell(visited, e.x, e.y + 1, true);
        queue' := queue + [Entry(e.x, e.y + 1, e.fdx, e.fdy)];
      }
      return false, visited', queue';
    }
    hit, visited', queue' := ExpandNeighbours(c, gx, gy, px, py, visited, queue, e);
  }

  /** The supported half of `ExpandEntry`: each of the four steps from `e`
      that `try_move` allows and that reaches an unvisited cell either hits
      the player or queues that cell. */
  method ExpandNeighbours(c: Ctx, gx: nat, gy: nat, px: nat, py: nat,
                          visited: seq<seq<bool>>, queue: seq<Entry>, e: Entry)
    returns (hit: bool, visited': seq<seq<bool>>, queue': seq<Entry>)
    requires c.Valid() && SearchInvariant(c, gx, gy, visited, queue)
    requires e.x < c.m.width && e.y < c.m.height
    requires (e.fdx, e.fdy) in DIRS && TryMove(c, gx, gy, e.fdx, e.fdy).Some?
    ensures SearchInvariant(c, gx, gy, visited', queue')
    ensures |queue| <= |queue'| && queue'[..|queue|] == queue
    ensures forall i :: |queue| <= i < |queue'| ==> queue'[i].fdx == e.fdx && queue'[i].fdy == e.fdy
    ensures forall i :: |queue| <= i < |queue'| ==>
      exists k :: 0 <= k < 4 && TryMove(c, e.x, e.y, DIRS[k].0, DIRS[k].1) == Some((queue'[i].x, queue'[i].y))
    ensures hit ==> exists k :: 0 <= k < 4 && TryMove(c, e.x, e.y, DIRS[k].0, DIRS[k].1) == Some((px, py))
  {
    visited', queue' := visited, queue;
    for k := 0 to 4
      invariant SearchInvariant(c, gx, gy, visited', queue')
      invariant |queue| <= |queue'| && queue'[..|queue|] == queue
      invariant forall i :: |queue| <= i < |queue'| ==> queue'[i].fdx == e.fdx && queue'[i].fdy == e.fdy
      invariant forall i :: |queue| <= i < |queue'| ==>
        exists k :: 0 <= k < 4 && TryMove(c, e.x, e.y, DIRS[k].0, DIRS[k].1) == Some((queue'[i].x, queue'[i].y))
    {
      var dir := DIRS[k];
      var next := TryMove(c, e.x, e.y, dir.0, dir.1);
      if next.Some? {
        var (nx, ny) := next.value;
        if !visited'[ny][nx] {
          if nx == px && ny == py {
            return true, visited', queue';
          }
          PushKeepsInvariant(c, gx, gy, visited', queue', Entry(nx, ny, e.fdx, e.fdy));
          visited' := SetCell(visited', nx, ny, true);
          queue' := queue' + [Entry(nx, ny, e.fdx, e.fdy)];
        }
      }
    }
    hit := false;
  }

  /** `ai::find_direction`: the first step of a breadth-first search from the
      guard toward the player. It returns (0, 0) for a trapped or dead guard
      and for a guard already on the player's cell; a step found by the
      search is a legal move from the guard's cell; when the search finds
      nothing (or gives up after `BFS_MAX_DEPTH` expansions) the answer is
      `FallbackChase`. No cell is queued twice, and never the start. */
  method FindDirection(c: Ctx, gx: nat, gy: nat, gstate: ActorState, px: nat, py: nat)
    returns (d: (int, int), ghost viaSearch: bool, ghost enqueued: seq<(nat, nat)>, ghost expanded: nat)
    requires c.Valid() && gx < c.m.width && gy < c.m.height
    ensures d == (0, 0) || d in DIRS
    ensures Rules.IsSticky(gstate) || (gx == px && gy == py) ==> d == (0, 0) && !viaSearch
    ensures viaSearch ==> d in DIRS && TryMove(c, gx, gy, d.0, d.1).Some?
    ensures !viaSearch && !Rules.IsSticky(gstate) && !(gx == px && gy == py) ==>
      d == FallbackChase(c, gx, gy, px, py)
    ensures ChaseAnswer(c, gx, gy, gstate, px, py, d)
    ensures expanded <= BFS_MAX_DEPTH
    ensures forall i :: 0 <= i < |enqueued| ==> enqueued[i] != (gx, gy)
    ensures forall i, j :: 0 <= i < j < |enqueued| ==> enqueued[i] != enqueued[j]
  {
    viaSearch, enqueued, expanded := false, [], 0;
    if Rules.IsSticky(gstate) || (gx == px && gy == py) {
      return (0, 0), false, [], 0;
    }
    var hit, visited, queue := SeedSearch(c, gx, gy, px, py);
    if hit.Some? {
      return hit.value, true, [], 0;
    }

    var head, steps := 0, 0;
    while head < |queue|
      invariant 0 <= head <= |queue|
      invariant steps <= BFS_MAX_DEPTH && expanded <= BFS_MAX_DEPTH
      invariant SearchInvariant(c, gx, gy, visited, queue)
      decreases BFS_MAX_DEPTH - steps
    {
      var e := queue[head];
      head := head + 1;
      steps := steps + 1;
      if steps > BFS_MAX_DEPTH {
        break;
      }
      expanded := steps;
      var found;
      found, visited, queue := ExpandEntry(c, gx, gy, px, py, visited, queue, e);
      if found {
        return (e.fdx, e.fdy), true, ToCells(queue), expanded;
      }
    }
    d := FallbackChase(c, gx, gy, px, py);
    enqueued := ToCells(queue);
  }

  /** What `ai::find_direction` may answer for a guard at (gx, gy) in state
      `gstate` chasing a player at (px, py): (0, 0) for a trapped or dead
      guard and for one on the player's cell; otherwise a legal unit step
      (the first step of the search) or the answer of `FallbackChase`. */
  ghost predicate ChaseAnswer(c: Ctx, gx: nat, gy: nat, gstate: ActorState, px: nat, py: nat, d: (int, int))
    requires c.Valid()
  {
    if Rules.IsSticky(gstate) || (gx == px && gy == py) then d == (0, 0)
    else (d in DIRS && TryMove(c, gx, gy, d.0, d.1).Some?) || d == FallbackChase(c, gx, gy, px, py)
  }

  /** A step the chase may answer, other than standing still, is a unit
      step of a free guard: either a legal move or the fallback's step that
      brings the guard one closer to the player. */
  lemma ChaseAnswerMoves(c: Ctx, gx: nat, gy: nat, gstate: ActorState, px: nat, py: nat, d: (int, int))
    requires c.Valid() && ChaseAnswer(c, gx, gy, gstate, px, py, d) && d != (0, 0)
    ensures !Rules.IsSticky(gstate) && !(gx == px && gy == py) && d in DIRS
    ensures TryMove(c, gx, gy, d.0, d.1).Some? || Manhattan(gx + d.0, gy + d.1, px, py) + 1 == Manhattan(gx, gy, px, py)
  {
  }

  /** The cells of a queue, in order. */
  ghost function ToCells(queue: seq<Entry>): (cells: seq<(nat, nat)>)
    ensures |cells| == |queue|
    ensures forall i :: 0 <= i < |queue| ==> cells[i] == (queue[i].x, queue[i].y)
  {
    seq(|queue|, i requires 0 <= i < |queue| => (queue[i].x, queue[i].y))
  }

  /** A guard other than `self` that the separation rule looks at. */
  predicate Eligible(guards: seq<Guard>, self: nat, j: nat)
    requires j < |guards|
  {
    j != self && !Rules.IsSticky(guards[j].state)
  }

  /** The separation score of stepping from (gx, gy) to (nx, ny): ten times
      the distance gained from the nearest guard at (ox, oy), plus the
      distance gained toward the player. */
  function SeparationScore(gx: int, gy: int, nx: int, ny: int, ox: int, oy: int, px: int, py: int): int
  {
    (Manhattan(nx, ny, ox, oy) - Manhattan(gx, gy, ox, oy)) * 10
      + (Manhattan(gx, gy, px, py) - Manhattan(nx, ny, px, py))
  }

  /** The score of a unit step lies in [-11, 11], far above the i32 minimum
      the search starts from, so the first legal step always beats it. */
  lemma {:induction false} ScoreIsBounded(gx: int, gy: int, k: nat, ox: int, oy: int, px: int, py: int)
    requires k < 4
    ensures -11 <= StepScore(gx, gy, k, ox, oy, px, py) <= 11
    ensures StepScore(gx, gy, k, ox, oy, px, py) > I32_MIN
  {
    UnitStepChangesDistanceByOne(gx, gy, DIRS[k], ox, oy);
    UnitStepChangesDistanceByOne(gx, gy, DIRS[k], px, py);
  }

  /** The separation score of the `k`-th step of `DIRS`. */
  function StepScore(gx: int, gy: int, k: nat, ox: int, oy: int, px: int, py: int): int
    requires k < 4
  {
    SeparationScore(gx, gy, gx + DIRS[k].0, gy + DIRS[k].1, ox, oy, px, py)
  }

  /** A unit step from (gx, gy) that `TryMove` allows. */
  predicate Legal(c: Ctx, gx: nat, gy: nat, k: nat)
    requires c.Valid() && k < 4
  {
    TryMove(c, gx, gy, DIRS[k].0, DIRS[k].1).Some?
  }

  /** The nearest-guard scan of `ai::find_separation_direction`: the
      smallest distance from (gx, gy) to a guard other than `self` that is
      neither dead nor trapped, starting from the i32 maximum, with the
      position of the first guard (in index order) at that distance. */
  method NearestGuard(guards: seq<Guard>, self: nat, gx: nat, gy: nat)
    returns (dist: int, ox: nat, oy: nat, ghost nearest: nat)
    ensures dist <= I32_MAX
    ensures forall j :: 0 <= j < |guards| && Eligible(guards, self, j) ==>
      dist <= Manhattan(guards[j].x, guards[j].y, gx, gy)
    ensures dist == I32_MAX ==> ox == gx && oy == gy
    ensures dist < I32_MAX ==>
      nearest < |guards| && Eligible(guards, self, nearest)
      && ox == guards[nearest].x && oy == guards[nearest].y
      && dist == Manhattan(ox, oy, gx, gy)
      && (forall j :: 0 <= j < nearest && Eligible(guards, self, j) ==>
            dist < Manhattan(guards[j].x, guards[j].y, gx, gy))
  {
    dist, ox, oy, nearest := I32_MAX, gx, gy, 0;
    for j := 0 to |guards|
      invariant dist <= I32_MAX
      invariant dist == I32_MAX ==> ox == gx && oy == gy
      invariant dist < I32_MAX ==>
        nearest < j && Eligible(guards, self, nearest)
        && ox == guards[nearest].x && oy == guards[nearest].y
        && dist == Manhattan(ox, oy, gx, gy)
        && (forall i :: 0 <= i < nearest && Eligible(guards, self, i) ==>
              dist < Manhattan(guards[i].x, guards[i].y, gx, gy))
      invariant forall i :: 0 <= i < j && Eligible(guards, self, i) ==>
        dist <= Manhattan(guards[i].x, guards[i].y, gx, gy)
    {
      if j == self || Rules.IsSticky(guards[j].state) {
        continue;
      }
      var d := Manhattan(guards[j].x, guards[j].y, gx, gy);
      if d < dist {
        dist, ox, oy, nearest := d, guards[j].x, guards[j].y, j;
      }
    }
  }

  /** Some guard other than `self`, neither dead nor trapped, is within
      distance 3 of (gx, gy). */
  ghost predicate Crowded(guards: seq<Guard>, self: nat, gx: nat, gy: nat)
  {
    exists j :: 0 <= j < |guards| && Eligible(guards, self, j) && Manhattan(guards[j].x, guards[j].y, gx, gy) <= 3
  }

  /** Guard `j` is the one the nearest-guard scan settles on: eligible, no
      farther than any eligible guard, and strictly nearer than every
      eligible guard before it. */
  ghost predicate IsNearest(guards: seq<Guard>, self: nat, gx: nat, gy: nat, j: nat)
  {
    j < |guards| && Eligible(guards, self, j)
    && (forall i :: 0 <= i < |guards| && Eligible(guards, self, i) ==>
          Manhattan(guards[j].x, guards[j].y, gx, gy) <= Manhattan(guards[i].x, guards[i].y, gx, gy))
    && (forall i :: 0 <= i < j && Eligible(guards, self, i) ==>
          Manhattan(guards[j].x, guards[j].y, gx, gy) < Manhattan(guards[i].x, guards[i].y, gx, gy))
  }

  /** Step `k` of `DIRS` is the one the scoring loop keeps: legal, of maximal
      score, and strictly better than every legal step before it. */
  ghost predicate IsBestStep(c: Ctx, gx: nat, gy: nat, ox: nat, oy: nat, px: nat, py: nat, k: nat)
    requires c.Valid()
  {
    k < 4 && Legal(c, gx, gy, k)
    && (forall i :: 0 <= i < 4 && Legal(c, gx, gy, i) ==>
          StepScore(gx, gy, i, ox, oy, px, py) <= StepScore(gx, gy, k, ox, oy, px, py))
    && (forall i :: 0 <= i < k && Legal(c, gx, gy, i) ==>
          StepScore(gx, gy, i, ox, oy, px, py) < StepScore(gx, gy, k, ox, oy, px, py))
  }

  /** Some step of `DIRS` is legal from (gx, gy). */
  ghost predicate AnyLegal(c: Ctx, gx: nat, gy: nat)
    requires c.Valid()
  {
    exists k :: 0 <= k < 4 && Legal(c, gx, gy, k)
  }

  /** What `ai::find_separation_direction` may answer for guard `self`:
      (0, 0) for a trapped or dead guard; when another free guard is within
      distance 3 and some step is legal, the best-scoring step away from the
      nearest such guard; otherwise what the chase may answer. */
  ghost predicate SeparationAnswer(c: Ctx, self: nat, gx: nat, gy: nat, gstate: ActorState, px: nat, py: nat, d: (int, int))
    requires c.Valid()
  {
    if Rules.IsSticky(gstate) then d == (0, 0)
    else if Crowded(c.guards, self, gx, gy) && AnyLegal(c, gx, gy) then SeparatingStep(c, self, gx, gy, px, py, d)
    else ChaseAnswer(c, gx, gy, gstate, px, py, d)
  }

  /** `d` is the best-scoring step away from the nearest other free guard. */
  ghost predicate SeparatingStep(c: Ctx, self: nat, gx: nat, gy: nat, px: nat, py: nat, d: (int, int))
    requires c.Valid()
  {
    exists j: nat, k: nat :: IsNearest(c.guards, self, gx, gy, j)
      && IsBestStep(c, gx, gy, c.guards[j].x, c.guards[j].y, px, py, k) && d == DIRS[k]
  }

  /** The nearest guard is unique. */
  lemma NearestIsUnique(guards: seq<Guard>, self: nat, gx: nat, gy: nat, j1: nat, j2: nat)
    requires IsNearest(guards, self, gx, gy, j1) && IsNearest(guards, self, gx, gy, j2)
    ensures j1 == j2
  {
  }

  /** The best-scoring step is unique. */
  lemma BestStepIsUnique(c: Ctx, gx: nat, gy: nat, ox: nat, oy: nat, px: nat, py: nat, k1: nat, k2: nat)
    requires c.Valid()
    requires IsBestStep(c, gx, gy, ox, oy, px, py, k1) && IsBestStep(c, gx, gy, ox, oy, px, py, k2)
    ensures k1 == k2
  {
  }

  /** In separation mode a crowded guard has exactly one answer: the rule
      leaves no choice, unlike the chase, whose search is not specified
      step by step. */
  lemma {:induction false} SeparationStepIsDetermined(c: Ctx, self: nat, gx: nat, gy: nat, px: nat, py: nat,
                                                      d1: (int, int), d2: (int, int))
    requires c.Valid()
    requires SeparatingStep(c, self, gx, gy, px, py, d1) && SeparatingStep(c, self, gx, gy, px, py, d2)
    ensures d1 == d2
  {
    var j1: nat, k1: nat :| IsNearest(c.guards, self, gx, gy, j1)
      && IsBestStep(c, gx, gy, c.guards[j1].x, c.guards[j1].y, px, py, k1) && d1 == DIRS[k1];
    var j2: nat, k2: nat :| IsNearest(c.guards, self, gx, gy, j2)
      && IsBestStep(c, gx, gy, c.guards[j2].x, c.guards[j2].y, px, py, k2) && d2 == DIRS[k2];
    NearestIsUnique(c.guards, self, gx, gy, j1, j2);
    BestStepIsUnique(c, gx, gy, c.guards[j1].x, c.guards[j1].y, px, py, k1, k2);
  }

  /** The choice a scan over candidates `0 .. n` makes when a later legal
      candidate replaces the current one only with a strictly greater
      score. */
  ghost function BestOf(legal: seq<bool>, score: seq<int>, n: nat): (r: Option<nat>)
    requires n <= |legal| == |score|
    ensures r.Some? ==> r.value < n
  {
    if n == 0 then None
    else
      var prev := BestOf(legal, score, n - 1);
      if legal[n - 1] && (prev.None? || score[prev.value] < score[n - 1]) then Some(n - 1)
      else prev
  }

  /** Such a scan finds nothing exactly when no candidate is legal, and
      otherwise the first legal candidate of maximal score. */
  lemma {:induction false} BestOfIsFirstMaximum(legal: seq<bool>, score: seq<int>, n: nat)
    requires n <= |legal| == |score|
    ensures var r := BestOf(legal, score, n);
      (r.None? <==> forall k :: 0 <= k < n ==> !legal[k])
      && (r.Some? ==>
            r.value < n && legal[r.value]
            && (forall k :: 0 <= k < n && legal[k] ==> score[k] <= score[r.value])
            && (forall k :: 0 <= k < r.value && legal[k] ==> score[k] < score[r.value]))
  {
    if n > 0 {
      BestOfIsFirstMaximum(legal, score, n - 1);
    }
  }

  /** Which of the four steps of `DIRS` are legal from (gx, gy). */
  ghost function Legals(c: Ctx, gx: nat, gy: nat): (r: seq<bool>)
    requires c.Valid()
    ensures |r| == 4 && forall k :: 0 <= k < 4 ==> r[k] == Legal(c, gx, gy, k)
  {
    seq(4, k requires 0 <= k < 4 => Legal(c, gx, gy, k))
  }

  /** The separation scores of the four steps of `DIRS`. */
  ghost function Scores(gx: nat, gy: nat, ox: nat, oy: nat, px: nat, py: nat): (r: seq<int>)
    ensures |r| == 4 && forall k :: 0 <= k < 4 ==> r[k] == StepScore(gx, gy, k, ox, oy, px, py)
  {
    seq(4, k requires 0 <= k < 4 => StepScore(gx, gy, k, ox, oy, px, py))
  }

  /** The step the scoring loop of `ai::find_separation_direction` has
      chosen after looking at the first `n` steps of `DIRS`. */
  ghost function FirstBest(c: Ctx, gx: nat, gy: nat, ox: nat, oy: nat, px: nat, py: nat, n: nat): (r: Option<nat>)
    requires c.Valid() && n <= 4
    ensures r.Some? ==> r.value < n
  {
    BestOf(Legals(c, gx, gy), Scores(gx, gy, ox, oy, px, py), n)
  }

  /** `FirstBest` finds nothing exactly when no step is legal, and otherwise
      the first legal step of maximal score. */
  lemma FirstBestIsFirstMaximum(c: Ctx, gx: nat, gy: nat, ox: nat, oy: nat, px: nat, py: nat, n: nat)
    requires c.Valid() && n <= 4
    ensures var r := FirstBest(c, gx, gy, ox, oy, px, py, n);
      (r.None? <==> forall k :: 0 <= k < n ==> !Legal(c, gx, gy, k))
      && (r.Some? ==>
            r.value < n && Legal(c, gx, gy, r.value)
            && (forall k :: 0 <= k < n && Legal(c, gx, gy, k) ==>
                  StepScore(gx, gy, k, ox, oy, px, py) <= StepScore(gx, gy, r.value, ox, oy, px, py))
            && (forall k :: 0 <= k < r.value && Legal(c, gx, gy, k) ==>
                  StepScore(gx, gy, k, ox, oy, px, py) < StepScore(gx, gy, r.value, ox, oy, px, py)))
  {
    BestOfIsFirstMaximum(Legals(c, gx, gy), Scores(gx, gy, ox, oy, px, py), n);
  }

  /** The scoring loop of `ai::find_separation_direction`: the first legal
      step in `DIRS` order whose score is strictly greater than every earlier
      one's, starting from the i32 minimum; (0, 0) when no step is legal. */
  method BestSeparationStep(c: Ctx, gx: nat, gy: nat, ox: nat, oy: nat, px: nat, py: nat)
    returns (bestDir: (int, int), ghost best: nat)
    requires c.Valid()
    ensures bestDir == (0, 0) <==> forall k :: 0 <= k < 4 ==> !Legal(c, gx, gy, k)
    ensures bestDir != (0, 0) ==>
      best < 4 && bestDir == DIRS[best] && Legal(c, gx, gy, best)
      && (forall k :: 0 <= k < 4 && Legal(c, gx, gy, k) ==>
            StepScore(gx, gy, k, ox, oy, px, py) <= StepScore(gx, gy, best, ox, oy, px, py))
      && (forall k :: 0 <= k < best && Legal(c, gx, gy, k) ==>
            StepScore(gx, gy, k, ox, oy, px, py) < StepScore(gx, gy, best, ox, oy, px, py))
  {
    bestDir, best := (0, 0), 0;
    var bestScore := I32_MIN;
    for k := 0 to 4
      invariant FirstBest(c, gx, gy, ox, oy, px, py, k).None? ==> bestScore == I32_MIN && bestDir == (0, 0)
      invariant FirstBest(c, gx, gy, ox, oy, px, py, k).Some? ==>
        best == FirstBest(c, gx, gy, ox, oy, px, py, k).value && best < 4
        && bestDir == DIRS[best] && bestScore == StepScore(gx, gy, best, ox, oy, px, py)
    {
      ghost var prev := FirstBest(c, gx, gy, ox, oy, px, py, k);
      var legalK, score := ScoreStep(c, gx, gy, k, ox, oy, px, py);
      assert FirstBest(c, gx, gy, ox, oy, px, py, k + 1) ==
        if legalK && (prev.None? || StepScore(gx, gy, prev.value, ox, oy, px, py) < score) then Some(k) else prev;
      if prev.Some? {
        ScoreIsBounded(gx, gy, prev.value, ox, oy, px, py);
      }
      if legalK && score > bestScore {
        bestScore := score;
        bestDir := DIRS[k];
        best := k;
      }
    }
    FirstBestIsFirstMaximum(c, gx, gy, ox, oy, px, py, 4);
    assert forall k :: 0 <= k < 4 ==> DIRS[k] != (0, 0);
  }

  /** One step of the scoring loop: whether the `k`-th step of `DIRS` is
      legal and, if it is, its score (always above the i32 minimum). */
  method ScoreStep(c: Ctx, gx: nat, gy: nat, k: nat, ox: nat, oy: nat, px: nat, py: nat)
    returns (legal: bool, score: int)
    requires c.Valid() && k < 4
    ensures legal == Legal(c, gx, gy, k)
    ensures legal ==> score == StepScore(gx, gy, k, ox, oy, px, py) && score > I32_MIN
  {
    var dir := DIRS[k];
    var next := TryMove(c, gx, gy, dir.0, dir.1);
    legal, score := next.Some?, I32_MIN;
    if next.Some? {
      var (nx, ny) := next.value;
      score := SeparationScore(gx, gy, nx, ny, ox, oy, px, py);
      ScoreIsBounded(gx, gy, k, ox, oy, px, py);
    }
  }

  /** `ai::find_separation_direction`. A trapped or dead guard stays put.
      Otherwise the guard looks for the nearest other guard that is neither
      dead nor trapped (the first one in index order among equals). If one
      is within distance 3 and some step is legal, the result is the first
      legal step in `DIRS` order with the highest score; otherwise the guard
      chases the player as `FindDirection` does. */
  method FindSeparationDirection(c: Ctx, guardIdx: nat, gx: nat, gy: nat, gstate: ActorState, px: nat, py: nat)
    returns (d: (int, int), ghost separating: bool, ghost nearest: nat, ghost best: nat)
    requires c.Valid() && gx < c.m.width && gy < c.m.height
    ensures d == (0, 0) || d in DIRS
    ensures SeparationAnswer(c, guardIdx, gx, gy, gstate, px, py, d)
    ensures !separating && !Rules.IsSticky(gstate) ==> ChaseAnswer(c, gx, gy, gstate, px, py, d)
    ensures Rules.IsSticky(gstate) ==> d == (0, 0) && !separating
    ensures !Rules.IsSticky(gstate) ==>
      (separating <==> Crowded(c.guards, guardIdx, gx, gy) && AnyLegal(c, gx, gy))
    ensures separating ==>
      IsNearest(c.guards, guardIdx, gx, gy, nearest)
      && IsBestStep(c, gx, gy, c.guards[nearest].x, c.guards[nearest].y, px, py, best)
      && d == DIRS[best]
  {
    separating, nearest, best := false, 0, 0;
    if Rules.IsSticky(gstate) {
      return (0, 0), false, 0, 0;
    }
    var nearestDist, nearestX, nearestY;
    nearestDist, nearestX, nearestY, nearest := NearestGuard(c.guards, guardIdx, gx, gy);
    ghost var viaSearch, enqueued, expanded;
    if nearestDist > 3 {
      assert forall j :: 0 <= j < |c.guards| && Eligible(c.guards, guardIdx, j) ==>
        Manhattan(c.guards[j].x, c.guards[j].y, gx, gy) > 3;
      d, viaSearch, enqueued, expanded := FindDirection(c, gx, gy, gstate, px, py);
      return d, false, nearest, best;
    }
    var bestDir;
    bestDir, best := BestSeparationStep(c, gx, gy, nearestX, nearestY, px, py);
    assert Eligible(c.guards, guardIdx, nearest) && Manhattan(c.guards[nearest].x, c.guards[nearest].y, gx, gy) <= 3;
    assert Crowded(c.guards, guardIdx, gx, gy);
    if bestDir == (0, 0) {
      d, viaSearch, enqueued, expanded := FindDirection(c, gx, gy, gstate, px, py);
      return d, false, nearest, best;
    }
    assert Legal(c, gx, gy, best);
    d, separating := bestDir, true;
    assert IsNearest(c.guards, guardIdx, gx, gy, nearest);
    assert IsBestStep(c, gx, gy, c.guards[nearest].x, c.guards[nearest].y, px, py, best);
    assert SeparatingStep(c, guardIdx, gx, gy, px, py, d);
  }
}
