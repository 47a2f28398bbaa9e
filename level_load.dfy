/** `load_level`: building the world from a level's rows. */
module LevelLoad {
  import opened Common
  import opened Text
  import opened Tiles
  import opened Entity
  import opened World
  import opened Level
  import Physics

  // ---------------------------------------------------------------------
  // Loading a level into the world
  // ---------------------------------------------------------------------

  /** The tile a map character leaves in its cell; the spawn markers and
      the exit and hidden ladder marks leave it Empty, and so does any
      character outside the legend. */
  function CharTile(c: char): Tile
  {
    match c
    case '#' => Brick
    case '=' => Concrete
    case 'H' => Ladder
    case '-' => Rope
    case '$' => Gold
    case 'T' => TrapBrick
    case _ => Empty
  }

  /** The guard `load_level` spawns at `(x, y)` with id `id`. */
  function SpawnedGuard(id: nat, x: nat, y: nat, rate: nat): Guard
  {
    NewGuard(id, x, y).(moveCooldown := rate)
  }

  /** The map width `load_level` takes: the first row's byte length, 28 for
      a level without rows. */
  function LevelWidth(rows: seq<string>): nat
  {
    if |rows| > 0 then ByteLen(rows[0]) else 28
  }

  /** How many characters of a row the grid pass reads. */
  function Cols(row: string, width: nat): nat
  {
    if |row| < width then |row| else width
  }

  function EmptyTiles(width: nat, height: nat): (g: seq<seq<Tile>>)
    ensures IsGrid(g, width, height)
  {
    seq(height, _ => seq(width, _ => Empty))
  }

  function NoHoles(width: nat, height: nat): (g: seq<seq<bool>>)
    ensures IsGrid(g, width, height)
  {
    seq(height, _ => seq(width, _ => false))
  }

  /** The world fields `load_level` resets before its grid pass. */
  function ClearedFor(f: WorldFields, d: LevelDef, idx: nat, count: nat): WorldFields
  {
    var width := LevelWidth(d.rows);
    f.(currentLevel := idx, totalLevels := count, width := width, height := |d.rows|,
       tiles := EmptyTiles(width, |d.rows|), guards := [], holes := [], digs := [],
       exitColumns := [], hiddenLadderPositions := [], goldRemaining := 0, exitEnabled := false, tick := 0)
  }

  /** One cell of `load_level`'s grid pass: a terrain character sets the
      tile ('$' also counts the gold), 'P' places the player and its spawn
      point, 'E' adds the next guard, '^' adds its column as an exit column
      unless already listed, '~' records a hidden ladder. */
  function LoadCell(f: WorldFields, x: nat, y: nat, c: char, rate: nat): (r: WorldFields)
    requires y < |f.tiles| && x < |f.tiles[y]|
    ensures |r.tiles| == |f.tiles| && forall j :: 0 <= j < |f.tiles| ==> |r.tiles[j]| == |f.tiles[j]|
  {
    match c
    case '$' => f.(tiles := SetCell(f.tiles, x, y, Gold), goldRemaining := f.goldRemaining + 1)
    case 'P' => f.(player := NewPlayer(x, y), playerSpawn := (x, y))
    case 'E' => f.(guards := f.guards + [SpawnedGuard(|f.guards|, x, y, rate)])
    case '^' => if x in f.exitColumns then f else f.(exitColumns := f.exitColumns + [x])
    case '~' => f.(hiddenLadderPositions := f.hiddenLadderPositions + [(x, y)])
    case _ => if CharTile(c) != Empty then f.(tiles := SetCell(f.tiles, x, y, CharTile(c))) else f
  }

  /** A position the grid pass has reached before `(y, x)`, in scan order. */
  predicate ScanBefore(py: nat, px: nat, y: nat, x: nat)
  {
    py < y || (py == y && px < x)
  }

  predicate InPass(rows: seq<string>, width: nat, y: nat, x: nat)
  {
    y <= |rows| && (y < |rows| ==> x <= Cols(rows[y], width)) && (y == |rows| ==> x == 0)
  }

  /** The fields after the grid pass has read every cell before `(y, x)`
      (row `y` up to column `x`). */
  function LoadUpTo(f: WorldFields, rows: seq<string>, width: nat, rate: nat, y: nat, x: nat): (r: WorldFields)
    requires IsGrid(f.tiles, width, |rows|) && InPass(rows, width, y, x)
    ensures IsGrid(r.tiles, width, |rows|)
    decreases y, x
  {
    if x > 0 then LoadCell(LoadUpTo(f, rows, width, rate, y, x - 1), x - 1, y, rows[y][x - 1], rate)
    else if y > 0 then LoadUpTo(f, rows, width, rate, y - 1, Cols(rows[y - 1], width))
    else f
  }

  /** The extra hidden ladders added to `ps`, skipping those already
      listed. */
  function AddLadders(ps: seq<(nat, nat)>, extra: seq<(nat, nat)>): seq<(nat, nat)>
  {
    if |extra| == 0 then ps
    else
      var prev := AddLadders(ps, extra[..|extra| - 1]);
      if extra[|extra| - 1] in prev then prev else prev + [extra[|extra| - 1]]
  }

  /** The world after `load_level` loads level `idx` of `levels`. */
  function LoadedLevel(f: WorldFields, levels: seq<LevelDef>, idx: nat, rate: nat): WorldFields
    requires idx < |levels|
  {
    var d := levels[idx];
    var g := LoadUpTo(ClearedFor(f, d, idx, |levels|), d.rows, LevelWidth(d.rows), rate, |d.rows|, 0);
    g.(hiddenLadderPositions := AddLadders(g.hiddenLadderPositions, d.extraHiddenLadders),
       goldTotal := g.goldRemaining, baseTiles := g.tiles, holeGrid := NoHoles(g.width, g.height),
       phase := LevelIntro)
  }

  /** A terrain character's write. */
  method PutTile(w: WorldState, x: nat, y: nat, t: Tile)
    requires y < |w.tiles| && x < |w.tiles[y]|
    modifies w
    ensures w.Fields() == old(w.Fields()).(tiles := SetCell(old(w.tiles), x, y, t))
  {
    w.tiles := SetCell(w.tiles, x, y, t);
  }

  /** The writes for '$'. */
  method PutGold(w: WorldState, x: nat, y: nat)
    requires y < |w.tiles| && x < |w.tiles[y]|
    modifies w
    ensures w.Fields() == old(w.Fields()).(tiles := SetCell(old(w.tiles), x, y, Gold), goldRemaining := old(w.goldRemaining) + 1)
  {
    w.tiles := SetCell(w.tiles, x, y, Gold);
    w.goldRemaining := w.goldRemaining + 1;
  }

  /** The writes for 'P'. */
  method PutPlayer(w: WorldState, x: nat, y: nat)
    modifies w
    ensures w.Fields() == old(w.Fields()).(player := NewPlayer(x, y), playerSpawn := (x, y))
  {
    w.player := NewPlayer(x, y);
    w.playerSpawn := (x, y);
  }

  /** The writes for 'E'. */
  method PutGuard(w: WorldState, x: nat, y: nat, guardId: nat, rate: nat)
    modifies w
    ensures w.Fields() == old(w.Fields()).(guards := old(w.guards) + [SpawnedGuard(guardId, x, y, rate)])
  {
    var g := NewGuard(guardId, x, y);
    g := g.(moveCooldown := rate);
    w.guards := w.guards + [g];
  }

  /** The writes for '^'. */
  method PutExitColumn(w: WorldState, x: nat)
    modifies w
    ensures w.Fields() == old(w.Fields()).(exitColumns := if x in old(w.exitColumns) then old(w.exitColumns) else old(w.exitColumns) + [x])
  {
    if x !in w.exitColumns {
      w.exitColumns := w.exitColumns + [x];
    }
  }

  /** The writes for '~'. */
  method PutHiddenLadder(w: WorldState, x: nat, y: nat)
    modifies w
    ensures w.Fields() == old(w.Fields()).(hiddenLadderPositions := old(w.hiddenLadderPositions) + [(x, y)])
  {
    w.hiddenLadderPositions := w.hiddenLadderPositions + [(x, y)];
  }

  /** The match of `load_level`'s grid pass on one character. */
  method LoadCellInto(w: WorldState, x: nat, y: nat, c: char, guardId: nat, rate: nat)
    requires y < |w.tiles| && x < |w.tiles[y]| && guardId == |w.guards|
    modifies w
    ensures w.Fields() == LoadCell(old(w.Fields()), x, y, c, rate)
  {
    match c
    case '#' => PutTile(w, x, y, Brick);
    case '=' => PutTile(w, x, y, Concrete);
    case 'H' => PutTile(w, x, y, Ladder);
    case '-' => PutTile(w, x, y, Rope);
    case '$' => PutGold(w, x, y);
    case 'P' => PutPlayer(w, x, y);
    case 'E' => PutGuard(w, x, y, guardId, rate);
    case '^' => PutExitColumn(w, x);
    case 'T' => PutTile(w, x, y, TrapBrick);
    case '~' => PutHiddenLadder(w, x, y);
    case _ =>
  }

  /** The nested loop of `load_level` over the rows and their characters. */
  method GridPass(w: WorldState, rows: seq<string>, rate: nat)
    requires IsGrid(w.tiles, w.width, |rows|) && w.guards == []
    modifies w
    ensures w.Fields() == LoadUpTo(old(w.Fields()), rows, old(w.width), rate, |rows|, 0)
  {
    ghost var f0 := w.Fields();
    var width := w.width;
    var guardId := 0;
    var y := 0;
    while y < |rows|
      invariant y <= |rows|
      invariant w.Fields() == LoadUpTo(f0, rows, width, rate, y, 0)
      invariant guardId == |w.guards|
    {
      var row := rows[y];
      var x := 0;
      while x < |row|
        invariant x <= Cols(row, width)
        invariant w.Fields() == LoadUpTo(f0, rows, width, rate, y, x)
        invariant guardId == |w.guards|
      {
        if x >= width {
          break;
        }
        LoadCellInto(w, x, y, row[x], guardId, rate);
        if row[x] == 'E' {
          guardId := guardId + 1;
        }
        x := x + 1;
      }
      y := y + 1;
    }
  }

  /** The level's place in the pack and the map's size, cleared. */
  method ClearMap(w: WorldState, d: LevelDef, idx: nat, count: nat)
    modifies w
    ensures w.Fields() == old(w.Fields()).(currentLevel := idx, totalLevels := count, width := LevelWidth(d.rows),
      height := |d.rows|, tiles := EmptyTiles(LevelWidth(d.rows), |d.rows|))
  {
    var height := |d.rows|;
    var width := LevelWidth(d.rows);
    w.currentLevel, w.totalLevels, w.width, w.height := idx, count, width, height;
    w.tiles := EmptyTiles(width, height);
  }

  /** The guards, holes and digs, cleared. */
  method ClearActors(w: WorldState)
    modifies w
    ensures w.Fields() == old(w.Fields()).(guards := [], holes := [], digs := [])
  {
    w.guards, w.holes, w.digs := [], [], [];
  }

  /** The exit columns and hidden ladders, cleared. */
  method ClearMarks(w: WorldState)
    modifies w
    ensures w.Fields() == old(w.Fields()).(exitColumns := [], hiddenLadderPositions := [])
  {
    w.exitColumns, w.hiddenLadderPositions := [], [];
  }

  /** The gold counter, the exit flag and the tick, reset. */
  method ClearCounters(w: WorldState)
    modifies w
    ensures w.Fields() == old(w.Fields()).(goldRemaining := 0, exitEnabled := false, tick := 0)
  {
    w.goldRemaining, w.exitEnabled, w.tick := 0, false, 0;
  }

  /** The fields `load_level` resets before the grid pass. */
  method ClearFor(w: WorldState, d: LevelDef, idx: nat, count: nat)
    modifies w
    ensures w.Fields() == ClearedFor(old(w.Fields()), d, idx, count)
  {
    ClearMap(w, d, idx, count);
    ClearActors(w);
    ClearMarks(w);
    ClearCounters(w);
  }

  /** The closing writes of `load_level`: the gold total, the base layer,
      the hole grid and the phase. */
  method FinishLoad(w: WorldState)
    requires w.holes == []
    modifies w
    ensures w.Fields() == old(w.Fields()).(goldTotal := old(w.goldRemaining), baseTiles := old(w.tiles),
      holeGrid := NoHoles(old(w.width), old(w.height)), phase := LevelIntro)
  {
    w.goldTotal := w.goldRemaining;
    w.baseTiles := w.tiles;
    w.RebuildHoleGrid();
    NoHoleGrid(w.holeGrid, w.width, w.height);
    w.phase := LevelIntro;
  }

  lemma AddLaddersStep(ps: seq<(nat, nat)>, extra: seq<(nat, nat)>, k: nat)
    requires k < |extra|
    ensures AddLadders(ps, extra[..k + 1])
      == if extra[k] in AddLadders(ps, extra[..k]) then AddLadders(ps, extra[..k]) else AddLadders(ps, extra[..k]) + [extra[k]]
  {
    assert extra[..k + 1][..k] == extra[..k];
  }

  /** The loop of `load_level` over the level's extra hidden ladders. */
  method AddExtraLadders(w: WorldState, extra: seq<(nat, nat)>)
    modifies w
    ensures w.Fields() == old(w.Fields()).(hiddenLadderPositions := AddLadders(old(w.hiddenLadderPositions), extra))
  {
    ghost var ps := w.hiddenLadderPositions;
    var k := 0;
    while k < |extra|
      invariant k <= |extra|
      invariant w.Fields() == old(w.Fields()).(hiddenLadderPositions := AddLadders(ps, extra[..k]))
    {
      AddLaddersStep(ps, extra, k);
      if extra[k] !in w.hiddenLadderPositions {
        w.hiddenLadderPositions := w.hiddenLadderPositions + [extra[k]];
      }
      k := k + 1;
    }
    assert extra[..k] == extra;
  }

  /** A hole grid for no holes is all false. */
  lemma NoHoleGrid(g: seq<seq<bool>>, width: nat, height: nat)
    requires Physics.IsHoleGridOf(g, [], width, height)
    ensures g == NoHoles(width, height)
  {
    forall y | 0 <= y < height
      ensures g[y] == NoHoles(width, height)[y]
    {
    }
  }

  /** `load_level` on the level list `levels` (the active pack's levels)
      with the configured guard move rate: an index past the end only marks
      the game complete. */
  method LoadLevel(w: WorldState, levels: seq<LevelDef>, levelIdx: nat, guardMoveRate: nat)
    modifies w
    ensures levelIdx >= |levels| ==> w.Fields() == old(w.Fields()).(phase := GameComplete)
    ensures levelIdx < |levels| ==> w.Fields() == LoadedLevel(old(w.Fields()), levels, levelIdx, guardMoveRate)
    ensures levelIdx < |levels| ==> w.Valid()
    ensures old(w.Valid()) ==> w.Valid()
  {
    if levelIdx >= |levels| {
      w.phase := GameComplete;
      return;
    }
    ghost var f0 := w.Fields();
    var def := levels[levelIdx];
    ClearFor(w, def, levelIdx, |levels|);
    ghost var f1 := w.Fields();
    GridPass(w, def.rows, guardMoveRate);
    LoadUpToFrame(f1, def.rows, LevelWidth(def.rows), guardMoveRate, |def.rows|, 0);
    AddExtraLadders(w, def.extraHiddenLadders);
    FinishLoad(w);
    LoadedLevelIsValid(f0, levels, levelIdx, guardMoveRate);
  }

  // ---------------------------------------------------------------------
  // What load_level promises
  // ---------------------------------------------------------------------

  /** Field by field, what one cell of the grid pass changes. */
  lemma LoadCellFields(f: WorldFields, x: nat, y: nat, c: char, rate: nat)
    requires y < |f.tiles| && x < |f.tiles[y]|
    ensures var r := LoadCell(f, x, y, c, rate);
      r.tiles == (if CharTile(c) != Empty then SetCell(f.tiles, x, y, CharTile(c)) else f.tiles)
      && r.goldRemaining == f.goldRemaining + (if c == '$' then 1 else 0)
      && r.guards == f.guards + (if c == 'E' then [SpawnedGuard(|f.guards|, x, y, rate)] else [])
      && r.exitColumns == (if c == '^' && x !in f.exitColumns then f.exitColumns + [x] else f.exitColumns)
      && r.hiddenLadderPositions == f.hiddenLadderPositions + (if c == '~' then [(x, y)] else [])
      && (r.player, r.playerSpawn) == (if c == 'P' then (NewPlayer(x, y), (x, y)) else (f.player, f.playerSpawn))
  {
  }

  /** The cell `(px, py)` holds the character `c` and the grid pass has
      read it before reaching `(y, x)`. */
  predicate Marked(rows: seq<string>, width: nat, y: nat, x: nat, py: nat, px: nat, c: char)
  {
    py < |rows| && px < Cols(rows[py], width) && ScanBefore(py, px, y, x) && rows[py][px] == c
  }

  /** The grid pass has read the cell `(px, py)` before reaching `(y, x)`. */
  predicate Read(rows: seq<string>, width: nat, y: nat, x: nat, py: nat, px: nat)
  {
    py < |rows| && px < Cols(rows[py], width) && ScanBefore(py, px, y, x)
  }

  predicate Distinct<T(==)>(s: seq<T>)
  {
    forall i, j :: 0 <= i < j < |s| ==> s[i] != s[j]
  }

  /** Starting from an empty map, the pass has set the tile of every cell
      it has read and left the others Empty. */
  lemma {:induction false} LoadUpToTiles(f: WorldFields, rows: seq<string>, width: nat, rate: nat, y: nat, x: nat)
    requires f.tiles == EmptyTiles(width, |rows|) && InPass(rows, width, y, x)
    ensures var r := LoadUpTo(f, rows, width, rate, y, x);
      forall py, px :: 0 <= py < |rows| && 0 <= px < width ==>
        r.tiles[py][px] == if Read(rows, width, y, x, py, px) then CharTile(rows[py][px]) else Empty
    decreases y, x
  {
    if x > 0 {
      LoadUpToTiles(f, rows, width, rate, y, x - 1);
      var prev := LoadUpTo(f, rows, width, rate, y, x - 1);
      LoadCellFields(prev, x - 1, y, rows[y][x - 1], rate);
      ReadOneMore(rows, width, y, x);
    } else if y > 0 {
      LoadUpToTiles(f, rows, width, rate, y - 1, Cols(rows[y - 1], width));
      ReadRowEnd(rows, width, y);
    }
  }

  /** Reaching `(y, x)` from `(y, x - 1)` reads one more cell. */
  lemma ReadOneMore(rows: seq<string>, width: nat, y: nat, x: nat)
    requires 0 < x && y < |rows| && x <= Cols(rows[y], width)
    ensures forall py, px :: Read(rows, width, y, x, py, px) == (Read(rows, width, y, x - 1, py, px) || (py == y && px == x - 1))
  {
  }

  /** The start of row `y` is the end of row `y - 1`. */
  lemma ReadRowEnd(rows: seq<string>, width: nat, y: nat)
    requires 0 < y <= |rows|
    ensures forall py, px :: Read(rows, width, y, 0, py, px) == Read(rows, width, y - 1, Cols(rows[y - 1], width), py, px)
  {
  }

  lemma {:induction false} NoGoldRow(row: seq<Tile>)
    requires forall i :: 0 <= i < |row| ==> row[i] != Gold
    ensures RowGold(row) == 0
    decreases |row|
  {
    if |row| > 0 {
      NoGoldRow(row[..|row| - 1]);
    }
  }

  lemma {:induction false} NoGold(g: seq<seq<Tile>>)
    requires forall y, x :: 0 <= y < |g| && 0 <= x < |g[y]| ==> g[y][x] != Gold
    ensures GoldCount(g) == 0
    decreases |g|
  {
    if |g| > 0 {
      NoGold(g[..|g| - 1]);
      NoGoldRow(g[|g| - 1]);
    }
  }

  /** A cell that was still Empty keeps the gold counter equal to the gold
      on the map. */
  lemma LoadCellGold(f: WorldFields, x: nat, y: nat, c: char, rate: nat)
    requires y < |f.tiles| && x < |f.tiles[y]| && f.tiles[y][x] == Empty
    requires f.goldRemaining == GoldCount(f.tiles)
    ensures var r := LoadCell(f, x, y, c, rate);
      r.goldRemaining == GoldCount(r.tiles)
  {
    LoadCellFields(f, x, y, c, rate);
    GoldCountSetCell(f.tiles, x, y, CharTile(c));
  }

  /** Starting from an empty map with no gold counted, the gold counter is
      the number of Gold cells written so far. */
  lemma {:induction false} LoadUpToGold(f: WorldFields, rows: seq<string>, width: nat, rate: nat, y: nat, x: nat)
    requires f.tiles == EmptyTiles(width, |rows|) && f.goldRemaining == 0 && InPass(rows, width, y, x)
    ensures var r := LoadUpTo(f, rows, width, rate, y, x);
      r.goldRemaining == GoldCount(r.tiles)
    decreases y, x
  {
    if x > 0 {
      LoadUpToGold(f, rows, width, rate, y, x - 1);
      var prev := LoadUpTo(f, rows, width, rate, y, x - 1);
      assert prev.tiles[y][x - 1] == Empty by {
        LoadUpToTiles(f, rows, width, rate, y, x - 1);
      }
      LoadCellGold(prev, x - 1, y, rows[y][x - 1], rate);
    } else if y > 0 {
      LoadUpToGold(f, rows, width, rate, y - 1, Cols(rows[y - 1], width));
    } else {
      NoGold(f.tiles);
    }
  }

  /** The grid pass changes only the tiles, the gold counter, the player
      and its spawn point, the guards, the exit columns and the hidden
      ladders. */
  lemma {:induction false} LoadUpToFrame(f: WorldFields, rows: seq<string>, width: nat, rate: nat, y: nat, x: nat)
    requires IsGrid(f.tiles, width, |rows|) && InPass(rows, width, y, x)
    ensures var r := LoadUpTo(f, rows, width, rate, y, x);
      r == f.(tiles := r.tiles, goldRemaining := r.goldRemaining, player := r.player,
        playerSpawn := r.playerSpawn, guards := r.guards, exitColumns := r.exitColumns,
        hiddenLadderPositions := r.hiddenLadderPositions)
    decreases y, x
  {
    if x > 0 {
      LoadUpToFrame(f, rows, width, rate, y, x - 1);
      var prev := LoadUpTo(f, rows, width, rate, y, x - 1);
      LoadCellFields(prev, x - 1, y, rows[y][x - 1], rate);
    } else if y > 0 {
      LoadUpToFrame(f, rows, width, rate, y - 1, Cols(rows[y - 1], width));
    }
  }

  /** Reading one more cell of row `y` marks exactly that cell. */
  lemma MarkedStep(rows: seq<string>, width: nat, y: nat, x: nat, py: nat, px: nat, c: char)
    requires 0 < x && y < |rows| && x <= Cols(rows[y], width)
    ensures Marked(rows, width, y, x, py, px, c)
      <==> Marked(rows, width, y, x - 1, py, px, c) || (py == y && px == x - 1 && rows[y][x - 1] == c)
  {
  }

  /** Starting row `y` marks nothing beyond the end of row `y - 1`. */
  lemma MarkedRow(rows: seq<string>, width: nat, y: nat, py: nat, px: nat, c: char)
    requires 0 < y <= |rows|
    ensures Marked(rows, width, y, 0, py, px, c) <==> Marked(rows, width, y - 1, Cols(rows[y - 1], width), py, px, c)
  {
  }

  /** No cell read before `(y, x)` holds `c`. */
  ghost predicate NoMark(rows: seq<string>, width: nat, y: nat, x: nat, c: char)
  {
    forall py: nat, px: nat :: !Marked(rows, width, y, x, py, px, c)
  }

  /** Guard `i` has id `i`, the configured cooldown and stands on an 'E'
      cell read before `(y, x)`. */
  predicate GuardsSpawned(gs: seq<Guard>, rows: seq<string>, width: nat, y: nat, x: nat, rate: nat)
  {
    forall i :: 0 <= i < |gs| ==>
      gs[i] == SpawnedGuard(i, gs[i].x, gs[i].y, rate) && Marked(rows, width, y, x, gs[i].y, gs[i].x, 'E')
  }

  /** The guards are listed in scan order. */
  predicate GuardsOrdered(gs: seq<Guard>)
  {
    forall i, j :: 0 <= i < j < |gs| ==> ScanBefore(gs[i].y, gs[i].x, gs[j].y, gs[j].x)
  }

  /** Every 'E' cell read before `(y, x)` has a guard. */
  ghost predicate GuardsCover(gs: seq<Guard>, rows: seq<string>, width: nat, y: nat, x: nat)
  {
    forall py: nat, px: nat :: Marked(rows, width, y, x, py, px, 'E') ==>
      exists i :: 0 <= i < |gs| && gs[i].x == px && gs[i].y == py
  }

  lemma GuardsStep(prev: seq<Guard>, gs: seq<Guard>, rows: seq<string>, width: nat, y: nat, x: nat, rate: nat)
    requires 0 < x && y < |rows| && x <= Cols(rows[y], width)
    requires GuardsSpawned(prev, rows, width, y, x - 1, rate) && GuardsOrdered(prev)
    requires gs == prev + (if rows[y][x - 1] == 'E' then [SpawnedGuard(|prev|, x - 1, y, rate)] else [])
    ensures GuardsSpawned(gs, rows, width, y, x, rate) && GuardsOrdered(gs)
  {
    forall i | 0 <= i < |gs|
      ensures gs[i] == SpawnedGuard(i, gs[i].x, gs[i].y, rate) && Marked(rows, width, y, x, gs[i].y, gs[i].x, 'E')
    {
      MarkedStep(rows, width, y, x, gs[i].y, gs[i].x, 'E');
    }
  }

  lemma GuardsCoverStep(prev: seq<Guard>, gs: seq<Guard>, rows: seq<string>, width: nat, y: nat, x: nat, rate: nat)
    requires 0 < x && y < |rows| && x <= Cols(rows[y], width)
    requires GuardsCover(prev, rows, width, y, x - 1)
    requires gs == prev + (if rows[y][x - 1] == 'E' then [SpawnedGuard(|prev|, x - 1, y, rate)] else [])
    ensures GuardsCover(gs, rows, width, y, x)
  {
    forall py: nat, px: nat | Marked(rows, width, y, x, py, px, 'E')
      ensures exists i :: 0 <= i < |gs| && gs[i].x == px && gs[i].y == py
    {
      MarkedStep(rows, width, y, x, py, px, 'E');
      if Marked(rows, width, y, x - 1, py, px, 'E') {
        var i :| 0 <= i < |prev| && prev[i].x == px && prev[i].y == py;
        assert gs[i] == prev[i];
      } else {
        assert gs[|prev|].x == px && gs[|prev|].y == py;
      }
    }
  }

  lemma GuardsRow(gs: seq<Guard>, rows: seq<string>, width: nat, y: nat, rate: nat)
    requires 0 < y <= |rows|
    requires GuardsSpawned(gs, rows, width, y - 1, Cols(rows[y - 1], width), rate)
    requires GuardsCover(gs, rows, width, y - 1, Cols(rows[y - 1], width))
    ensures GuardsSpawned(gs, rows, width, y, 0, rate) && GuardsCover(gs, rows, width, y, 0)
  {
    forall py: nat, px: nat
      ensures Marked(rows, width, y, 0, py, px, 'E') <==> Marked(rows, width, y - 1, Cols(rows[y - 1], width), py, px, 'E')
    {
      MarkedRow(rows, width, y, py, px, 'E');
    }
  }

  /** Starting with no guards, the pass has spawned one guard per 'E' cell
      read, in scan order, the i-th with id i and the configured move
      cooldown. */
  lemma {:induction false} LoadUpToGuards(f: WorldFields, rows: seq<string>, width: nat, rate: nat, y: nat, x: nat)
    requires IsGrid(f.tiles, width, |rows|) && f.guards == [] && InPass(rows, width, y, x)
    ensures var gs := LoadUpTo(f, rows, width, rate, y, x).guards;
      GuardsSpawned(gs, rows, width, y, x, rate) && GuardsOrdered(gs) && GuardsCover(gs, rows, width, y, x)
    decreases y, x
  {
    if x > 0 {
      LoadUpToGuards(f, rows, width, rate, y, x - 1);
      var prev := LoadUpTo(f, rows, width, rate, y, x - 1);
      LoadCellFields(prev, x - 1, y, rows[y][x - 1], rate);
      var gs := LoadUpTo(f, rows, width, rate, y, x).guards;
      GuardsStep(prev.guards, gs, rows, width, y, x, rate);
      GuardsCoverStep(prev.guards, gs, rows, width, y, x, rate);
    } else if y > 0 {
      LoadUpToGuards(f, rows, width, rate, y - 1, Cols(rows[y - 1], width));
      GuardsRow(LoadUpTo(f, rows, width, rate, y, x).guards, rows, width, y, rate);
    }
  }

  // Exit columns

  /** The columns listed are exactly those of the '^' cells read before
      `(y, x)`. */
  ghost predicate ExitsMarked(cols: seq<nat>, rows: seq<string>, width: nat, y: nat, x: nat)
  {
    forall col: nat :: col in cols <==> exists py: nat :: Marked(rows, width, y, x, py, col, '^')
  }

  lemma ExitsStep(prev: seq<nat>, cols: seq<nat>, rows: seq<string>, width: nat, y: nat, x: nat)
    requires 0 < x && y < |rows| && x <= Cols(rows[y], width)
    requires Distinct(prev) && ExitsMarked(prev, rows, width, y, x - 1)
    requires cols == if rows[y][x - 1] == '^' && x - 1 !in prev then prev + [x - 1] else prev
    ensures Distinct(cols) && ExitsMarked(cols, rows, width, y, x)
  {
    forall col: nat
      ensures col in cols <==> exists py: nat :: Marked(rows, width, y, x, py, col, '^')
    {
      if col in cols {
        if col in prev {
          var py: nat :| Marked(rows, width, y, x - 1, py, col, '^');
          MarkedStep(rows, width, y, x, py, col, '^');
        } else {
          MarkedStep(rows, width, y, x, y, col, '^');
        }
      }
      if exists py: nat :: Marked(rows, width, y, x, py, col, '^') {
        var py: nat :| Marked(rows, width, y, x, py, col, '^');
        MarkedStep(rows, width, y, x, py, col, '^');
      }
    }
  }

  lemma ExitsRow(cols: seq<nat>, rows: seq<string>, width: nat, y: nat)
    requires 0 < y <= |rows|
    requires ExitsMarked(cols, rows, width, y - 1, Cols(rows[y - 1], width))
    ensures ExitsMarked(cols, rows, width, y, 0)
  {
    forall col: nat
      ensures col in cols <==> exists py: nat :: Marked(rows, width, y, 0, py, col, '^')
    {
      if col in cols {
        var py: nat :| Marked(rows, width, y - 1, Cols(rows[y - 1], width), py, col, '^');
        MarkedRow(rows, width, y, py, col, '^');
      }
      if exists py: nat :: Marked(rows, width, y, 0, py, col, '^') {
        var py: nat :| Marked(rows, width, y, 0, py, col, '^');
        MarkedRow(rows, width, y, py, col, '^');
      }
    }
  }

  /** Starting with no exit columns, the pass lists each column holding a
      '^' cell once, and no other column. */
  lemma {:induction false} LoadUpToExits(f: WorldFields, rows: seq<string>, width: nat, rate: nat, y: nat, x: nat)
    requires IsGrid(f.tiles, width, |rows|) && f.exitColumns == [] && InPass(rows, width, y, x)
    ensures var cols := LoadUpTo(f, rows, width, rate, y, x).exitColumns;
      Distinct(cols) && ExitsMarked(cols, rows, width, y, x)
    decreases y, x
  {
    if x > 0 {
      LoadUpToExits(f, rows, width, rate, y, x - 1);
      var prev := LoadUpTo(f, rows, width, rate, y, x - 1);
      LoadCellFields(prev, x - 1, y, rows[y][x - 1], rate);
      ExitsStep(prev.exitColumns, LoadUpTo(f, rows, width, rate, y, x).exitColumns, rows, width, y, x);
    } else if y > 0 {
      LoadUpToExits(f, rows, width, rate, y - 1, Cols(rows[y - 1], width));
      ExitsRow(LoadUpTo(f, rows, width, rate, y, x).exitColumns, rows, width, y);
    }
  }

  // Hidden ladders

  /** The hidden ladders are listed in scan order. */
  predicate LaddersOrdered(hs: seq<(nat, nat)>)
  {
    forall i, j :: 0 <= i < j < |hs| ==> ScanBefore(hs[i].1, hs[i].0, hs[j].1, hs[j].0)
  }

  /** The positions listed are exactly the '~' cells read before `(y, x)`. */
  ghost predicate LaddersMarked(hs: seq<(nat, nat)>, rows: seq<string>, width: nat, y: nat, x: nat)
  {
    forall p: (nat, nat) :: p in hs <==> Marked(rows, width, y, x, p.1, p.0, '~')
  }

  lemma LaddersStep(prev: seq<(nat, nat)>, hs: seq<(nat, nat)>, rows: seq<string>, width: nat, y: nat, x: nat)
    requires 0 < x && y < |rows| && x <= Cols(rows[y], width)
    requires LaddersOrdered(prev) && LaddersMarked(prev, rows, width, y, x - 1)
    requires hs == prev + (if rows[y][x - 1] == '~' then [(x - 1, y)] else [])
    ensures LaddersOrdered(hs) && LaddersMarked(hs, rows, width, y, x)
  {
    forall p: (nat, nat)
      ensures p in hs <==> Marked(rows, width, y, x, p.1, p.0, '~')
    {
      MarkedStep(rows, width, y, x, p.1, p.0, '~');
    }
    forall i, j | 0 <= i < j < |hs|
      ensures ScanBefore(hs[i].1, hs[i].0, hs[j].1, hs[j].0)
    {
      if j == |prev| {
        assert hs[i] in prev;
      }
    }
  }

  lemma LaddersRow(hs: seq<(nat, nat)>, rows: seq<string>, width: nat, y: nat)
    requires 0 < y <= |rows|
    requires LaddersMarked(hs, rows, width, y - 1, Cols(rows[y - 1], width))
    ensures LaddersMarked(hs, rows, width, y, 0)
  {
    forall p: (nat, nat)
      ensures p in hs <==> Marked(rows, width, y, 0, p.1, p.0, '~')
    {
      MarkedRow(rows, width, y, p.1, p.0, '~');
    }
  }

  /** Starting with none, the pass lists the '~' cells read, in scan
      order. */
  lemma {:induction false} LoadUpToLadders(f: WorldFields, rows: seq<string>, width: nat, rate: nat, y: nat, x: nat)
    requires IsGrid(f.tiles, width, |rows|) && f.hiddenLadderPositions == [] && InPass(rows, width, y, x)
    ensures var hs := LoadUpTo(f, rows, width, rate, y, x).hiddenLadderPositions;
      LaddersOrdered(hs) && LaddersMarked(hs, rows, width, y, x)
    decreases y, x
  {
    if x > 0 {
      LoadUpToLadders(f, rows, width, rate, y, x - 1);
      var prev := LoadUpTo(f, rows, width, rate, y, x - 1);
      LoadCellFields(prev, x - 1, y, rows[y][x - 1], rate);
      LaddersStep(prev.hiddenLadderPositions, LoadUpTo(f, rows, width, rate, y, x).hiddenLadderPositions, rows, width, y, x);
    } else if y > 0 {
      LoadUpToLadders(f, rows, width, rate, y - 1, Cols(rows[y - 1], width));
      LaddersRow(LoadUpTo(f, rows, width, rate, y, x).hiddenLadderPositions, rows, width, y);
    }
  }

  lemma OrderedIsDistinct(hs: seq<(nat, nat)>)
    requires LaddersOrdered(hs)
    ensures Distinct(hs)
  {
    forall i, j | 0 <= i < j < |hs|
      ensures hs[i] != hs[j]
    {
      assert ScanBefore(hs[i].1, hs[i].0, hs[j].1, hs[j].0);
    }
  }

  /** The extra hidden ladders are added without repeats: the list stays
      free of duplicates and holds exactly the positions of both lists. */
  lemma {:induction false} AddLaddersUnion(ps: seq<(nat, nat)>, extra: seq<(nat, nat)>)
    requires Distinct(ps)
    ensures var r := AddLadders(ps, extra);
      Distinct(r) && ps <= r && forall p :: p in r <==> p in ps || p in extra
    decreases |extra|
  {
    if |extra| > 0 {
      var n := |extra| - 1;
      AddLaddersUnion(ps, extra[..n]);
      assert forall p :: p in extra <==> p in extra[..n] || p == extra[n] by {
        SplitLast(extra);
      }
    }
  }

  // The player

  /** The player stands on its spawn point, the last 'P' cell read before
      `(y, x)`; with no 'P' cell read both are as they were in `f`. */
  ghost predicate PlayerPlaced(r: WorldFields, f: WorldFields, rows: seq<string>, width: nat, y: nat, x: nat)
  {
    if NoMark(rows, width, y, x, 'P') then r.player == f.player && r.playerSpawn == f.playerSpawn
    else
      var (sx, sy) := r.playerSpawn;
      r.player == NewPlayer(sx, sy) && Marked(rows, width, y, x, sy, sx, 'P')
      && forall py: nat, px: nat :: Marked(rows, width, y, x, py, px, 'P') ==> ScanBefore(py, px, sy, sx) || (py, px) == (sy, sx)
  }

  lemma PlayerStep(prev: WorldFields, r: WorldFields, f: WorldFields, rows: seq<string>, width: nat, y: nat, x: nat)
    requires 0 < x && y < |rows| && x <= Cols(rows[y], width)
    requires PlayerPlaced(prev, f, rows, width, y, x - 1)
    requires (r.player, r.playerSpawn) == if rows[y][x - 1] == 'P' then (NewPlayer(x - 1, y), (x - 1, y)) else (prev.player, prev.playerSpawn)
    ensures PlayerPlaced(r, f, rows, width, y, x)
  {
    forall py: nat, px: nat
      ensures Marked(rows, width, y, x, py, px, 'P')
        <==> Marked(rows, width, y, x - 1, py, px, 'P') || (py == y && px == x - 1 && rows[y][x - 1] == 'P')
    {
      MarkedStep(rows, width, y, x, py, px, 'P');
    }
    if rows[y][x - 1] == 'P' {
      assert Marked(rows, width, y, x, y, x - 1, 'P');
    } else if NoMark(rows, width, y, x - 1, 'P') {
      assert NoMark(rows, width, y, x, 'P');
    } else {
      var (sx, sy) := prev.playerSpawn;
      assert Marked(rows, width, y, x - 1, sy, sx, 'P');
      assert Marked(rows, width, y, x, sy, sx, 'P');
    }
  }

  lemma PlayerRow(r: WorldFields, f: WorldFields, rows: seq<string>, width: nat, y: nat)
    requires 0 < y <= |rows|
    requires PlayerPlaced(r, f, rows, width, y - 1, Cols(rows[y - 1], width))
    ensures PlayerPlaced(r, f, rows, width, y, 0)
  {
    forall py: nat, px: nat
      ensures Marked(rows, width, y, 0, py, px, 'P') <==> Marked(rows, width, y - 1, Cols(rows[y - 1], width), py, px, 'P')
    {
      MarkedRow(rows, width, y, py, px, 'P');
    }
    if NoMark(rows, width, y - 1, Cols(rows[y - 1], width), 'P') {
      assert NoMark(rows, width, y, 0, 'P');
    } else {
      var (sx, sy) := r.playerSpawn;
      assert Marked(rows, width, y - 1, Cols(rows[y - 1], width), sy, sx, 'P');
      assert Marked(rows, width, y, 0, sy, sx, 'P');
    }
  }

  /** The pass places the player on the last 'P' cell it reads, or leaves
      the player and its spawn point alone when it reads none. */
  lemma {:induction false} LoadUpToPlayer(f: WorldFields, rows: seq<string>, width: nat, rate: nat, y: nat, x: nat)
    requires IsGrid(f.tiles, width, |rows|) && InPass(rows, width, y, x)
    ensures PlayerPlaced(LoadUpTo(f, rows, width, rate, y, x), f, rows, width, y, x)
    decreases y, x
  {
    if x > 0 {
      LoadUpToPlayer(f, rows, width, rate, y, x - 1);
      var prev := LoadUpTo(f, rows, width, rate, y, x - 1);
      LoadCellFields(prev, x - 1, y, rows[y][x - 1], rate);
      PlayerStep(prev, LoadUpTo(f, rows, width, rate, y, x), f, rows, width, y, x);
    } else if y > 0 {
      LoadUpToPlayer(f, rows, width, rate, y - 1, Cols(rows[y - 1], width));
      PlayerRow(LoadUpTo(f, rows, width, rate, y, x), f, rows, width, y);
    } else {
      assert NoMark(rows, width, 0, 0, 'P');
    }
  }

  // The loaded level

  /** After `load_level`, the map has the level's size, every cell within a
      row's length holds that character's tile and every other cell is
      Empty, the base layer equals it, the gold counter and the gold total
      are the gold on the map, and holes, digs, the exit flag and the tick
      are cleared; score, lives and speed are kept. */
  lemma LoadedLevelMap(f: WorldFields, levels: seq<LevelDef>, idx: nat, rate: nat)
    requires idx < |levels|
    ensures var r := LoadedLevel(f, levels, idx, rate);
      var rows := levels[idx].rows;
      var width := LevelWidth(rows);
      r.width == width && r.height == |rows| && IsGrid(r.tiles, width, |rows|)
      && (forall py, px :: 0 <= py < |rows| && 0 <= px < width ==>
        r.tiles[py][px] == if px < Cols(rows[py], width) then CharTile(rows[py][px]) else Empty)
      && r.baseTiles == r.tiles
      && r.goldTotal == r.goldRemaining == GoldCount(r.tiles)
      && r.holes == [] && r.digs == [] && r.holeGrid == NoHoles(width, |rows|)
      && !r.exitEnabled && r.tick == 0 && r.phase == LevelIntro
      && r.currentLevel == idx && r.totalLevels == |levels|
      && r.score == f.score && r.lives == f.lives && r.speed == f.speed
  {
    var d := levels[idx];
    var c := ClearedFor(f, d, idx, |levels|);
    var width := LevelWidth(d.rows);
    LoadUpToFrame(c, d.rows, width, rate, |d.rows|, 0);
    LoadUpToTiles(c, d.rows, width, rate, |d.rows|, 0);
    LoadUpToGold(c, d.rows, width, rate, |d.rows|, 0);
  }

  /** After `load_level`, there is one guard per 'E' cell, in scan order,
      guard i with id i; the player stands on the last 'P' cell, or is where
      it was when the level has none. */
  lemma LoadedLevelActors(f: WorldFields, levels: seq<LevelDef>, idx: nat, rate: nat)
    requires idx < |levels|
    ensures var r := LoadedLevel(f, levels, idx, rate);
      var rows := levels[idx].rows;
      var width := LevelWidth(rows);
      GuardsSpawned(r.guards, rows, width, |rows|, 0, rate) && GuardsOrdered(r.guards)
      && GuardsCover(r.guards, rows, width, |rows|, 0)
      && PlayerPlaced(r, f, rows, width, |rows|, 0)
  {
    var d := levels[idx];
    var c := ClearedFor(f, d, idx, |levels|);
    var width := LevelWidth(d.rows);
    LoadUpToFrame(c, d.rows, width, rate, |d.rows|, 0);
    LoadUpToGuards(c, d.rows, width, rate, |d.rows|, 0);
    LoadUpToPlayer(c, d.rows, width, rate, |d.rows|, 0);
  }

  /** After `load_level`, the exit columns are the columns of the '^'
      cells, each once, and the hidden ladders are the '~' cells and the
      level's extra hidden ladders, each once. */
  lemma LoadedLevelMarks(f: WorldFields, levels: seq<LevelDef>, idx: nat, rate: nat)
    requires idx < |levels|
    ensures var r := LoadedLevel(f, levels, idx, rate);
      var rows := levels[idx].rows;
      var width := LevelWidth(rows);
      Distinct(r.exitColumns) && ExitsMarked(r.exitColumns, rows, width, |rows|, 0)
      && Distinct(r.hiddenLadderPositions)
      && forall p :: p in r.hiddenLadderPositions <==>
        Marked(rows, width, |rows|, 0, p.1, p.0, '~') || p in levels[idx].extraHiddenLadders
  {
    var d := levels[idx];
    var c := ClearedFor(f, d, idx, |levels|);
    var width := LevelWidth(d.rows);
    var g := LoadUpTo(c, d.rows, width, rate, |d.rows|, 0);
    LoadUpToExits(c, d.rows, width, rate, |d.rows|, 0);
    LoadUpToLadders(c, d.rows, width, rate, |d.rows|, 0);
    OrderedIsDistinct(g.hiddenLadderPositions);
    AddLaddersUnion(g.hiddenLadderPositions, d.extraHiddenLadders);
  }

  /** Freshly spawned guards carry no gold. */
  lemma {:induction false} SpawnedCarryNothing(gs: seq<Guard>, rows: seq<string>, width: nat, rate: nat)
    requires GuardsSpawned(gs, rows, width, |rows|, 0, rate)
    ensures Carriers(gs) == 0
    decreases |gs|
  {
    if |gs| > 0 {
      var n := |gs| - 1;
      assert GuardsSpawned(gs[..n], rows, width, |rows|, 0, rate) by {
        forall i | 0 <= i < n
          ensures gs[..n][i] == SpawnedGuard(i, gs[..n][i].x, gs[..n][i].y, rate)
            && Marked(rows, width, |rows|, 0, gs[..n][i].y, gs[..n][i].x, 'E')
        {
          assert gs[..n][i] == gs[i];
        }
      }
      SpawnedCarryNothing(gs[..n], rows, width, rate);
    }
  }

  /** A loaded level satisfies the world invariant: the two layers are the
      same grid, the gold on the map is exactly the gold counted and no
      guard carries any, there are no holes or digs, and every guard stands
      and spawns on one of the map's cells. So every pass of `step`, which
      requires the invariant, can run on a world `load_level` built. */
  lemma LoadedLevelIsValid(f: WorldFields, levels: seq<LevelDef>, idx: nat, rate: nat)
    requires idx < |levels|
    ensures Inv(LoadedLevel(f, levels, idx, rate))
  {
    var r := LoadedLevel(f, levels, idx, rate);
    var rows := levels[idx].rows;
    var width := LevelWidth(rows);
    LoadedLevelMap(f, levels, idx, rate);
    LoadedLevelActors(f, levels, idx, rate);
    SpawnedCarryNothing(r.guards, rows, width, rate);
    forall i | 0 <= i < |r.guards|
      ensures GuardOnMap(r.width, r.height, r.guards[i])
    {
      assert Marked(rows, width, |rows|, 0, r.guards[i].y, r.guards[i].x, 'E');
    }
  }
}
