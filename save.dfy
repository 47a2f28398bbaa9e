/** The save format: key=value lines holding the level, score and lives,
    optionally followed by a full mid-game snapshot, together with the
    mapping between a snapshot and the world state. */
module Save {
  import opened Common
  import opened Tiles
  import opened Entity
  import opened World
  import opened Text
  import Timers

  // ---------------------------------------------------------------------
  // Records
  // ---------------------------------------------------------------------

  /** The player as a snapshot keeps it: everything but `alive`. */
  datatype SnapshotPlayer = SnapshotPlayer(x: nat, y: nat, facing: Facing, state: ActorState, moveCooldown: nat)

  /** A mid-game snapshot. A snapshot guard, hole or dig has exactly the
      fields of the live record, so the live datatypes are reused. */
  datatype Snapshot = Snapshot(
    tick: nat, width: nat, height: nat, tiles: seq<seq<Tile>>,
    player: SnapshotPlayer, guards: seq<Guard>, holes: seq<Hole>, digs: seq<DigInProgress>,
    goldRemaining: nat, goldTotal: nat, exitEnabled: bool,
    exitColumns: seq<nat>, hiddenLadderPositions: seq<(nat, nat)>, playerSpawn: (nat, nat))

  datatype SaveData = SaveData(level: nat, score: nat, lives: nat, snapshot: Option<Snapshot>)

  // ---------------------------------------------------------------------
  // Capture and restore
  // ---------------------------------------------------------------------

  /** `capture_snapshot`: the runtime state of the world as a snapshot. */
  function CaptureSnapshot(f: WorldFields): (s: Snapshot)
  {
    Snapshot(f.tick, f.width, f.height, f.tiles,
             SnapshotPlayer(f.player.x, f.player.y, f.player.facing, f.player.state, f.player.moveCooldown),
             f.guards, f.holes, f.digs, f.goldRemaining, f.goldTotal, f.exitEnabled,
             f.exitColumns, f.hiddenLadderPositions, f.playerSpawn)
  }

  /** The player a snapshot restores: alive, whatever it was. */
  function RestoredPlayer(p: SnapshotPlayer): (r: Player)
    ensures r.alive
  {
    Player(p.x, p.y, p.facing, p.state, true, p.moveCooldown)
  }

  /** The world fields once `restore_snapshot` has copied the snapshot in:
      every field the snapshot holds is overwritten (`Hole::new` and
      `DigInProgress::new_with_state` copy their arguments, so holes and
      digs come over unchanged) and the player is alive. */
  function Copied(f: WorldFields, s: Snapshot): WorldFields
  {
    f.(tick := s.tick, width := s.width, height := s.height, tiles := s.tiles,
       player := RestoredPlayer(s.player), guards := s.guards, holes := s.holes, digs := s.digs,
       goldRemaining := s.goldRemaining, goldTotal := s.goldTotal, exitEnabled := s.exitEnabled,
       exitColumns := s.exitColumns, hiddenLadderPositions := s.hiddenLadderPositions,
       playerSpawn := s.playerSpawn)
  }

  /** The world fields after `restore_snapshot`: copied, then the hole grid
      rebuilt from the restored holes. */
  ghost function Restored(f: WorldFields, s: Snapshot): WorldFields
  {
    Copied(f, s).(holeGrid := Timers.HoleGridOf(s.holes, s.width, s.height))
  }

  /** Restoring a snapshot keeps everything `load_level` and the session
      set: the base layer, speeds, phase, score, lives and level numbers;
      and its hole grid is the grid of the restored holes. */
  lemma RestoreKeepsSession(f: WorldFields, s: Snapshot)
    ensures var r := Restored(f, s);
      r.baseTiles == f.baseTiles && r.speed == f.speed && r.phase == f.phase && r.score == f.score
      && r.lives == f.lives && r.currentLevel == f.currentLevel && r.totalLevels == f.totalLevels
    ensures Physics.IsHoleGridOf(Restored(f, s).holeGrid, s.holes, s.width, s.height)
  {
  }

  /** Capturing a restored world gives the snapshot back. */
  lemma CaptureOfRestore(f: WorldFields, s: Snapshot)
    ensures CaptureSnapshot(Restored(f, s)) == s
  {
  }

  /** Restoring a captured snapshot changes only what the snapshot does
      not carry: the player is revived and the hole grid is rebuilt. So a
      live player in a world whose hole grid matches its holes is restored
      exactly. */
  lemma RestoreOfCapture(f: WorldFields)
    ensures Restored(f, CaptureSnapshot(f))
         == f.(player := f.player.(alive := true), holeGrid := Timers.HoleGridOf(f.holes, f.width, f.height))
    ensures f.player.alive && Physics.IsHoleGridOf(f.holeGrid, f.holes, f.width, f.height)
            ==> Restored(f, CaptureSnapshot(f)) == f
  {
    if Physics.IsHoleGridOf(f.holeGrid, f.holes, f.width, f.height) {
      Timers.HoleGridIsUnique(f.holeGrid, f.holes, f.width, f.height);
    }
  }

  method CopyGrid(w: WorldState, s: Snapshot)
    modifies w
    ensures w.Fields() == old(w.Fields()).(tick := s.tick, width := s.width, height := s.height, tiles := s.tiles)
  {
    w.tick, w.width, w.height, w.tiles := s.tick, s.width, s.height, s.tiles;
  }

  method CopyActors(w: WorldState, s: Snapshot)
    modifies w
    ensures w.Fields() == old(w.Fields()).(player := RestoredPlayer(s.player), guards := s.guards,
                                           holes := s.holes, digs := s.digs)
  {
    w.player := RestoredPlayer(s.player);
    w.guards, w.holes, w.digs := s.guards, s.holes, s.digs;
  }

  method CopyLevelState(w: WorldState, s: Snapshot)
    modifies w
    ensures w.Fields() == old(w.Fields()).(goldRemaining := s.goldRemaining, goldTotal := s.goldTotal,
                                           exitEnabled := s.exitEnabled, exitColumns := s.exitColumns,
                                           hiddenLadderPositions := s.hiddenLadderPositions,
                                           playerSpawn := s.playerSpawn)
  {
    w.goldRemaining, w.goldTotal, w.exitEnabled := s.goldRemaining, s.goldTotal, s.exitEnabled;
    w.exitColumns, w.hiddenLadderPositions, w.playerSpawn := s.exitColumns, s.hiddenLadderPositions, s.playerSpawn;
  }

  /** The copying half of `restore_snapshot`. */
  method CopySnapshot(w: WorldState, s: Snapshot)
    modifies w
    ensures w.Fields() == Copied(old(w.Fields()), s)
  {
    ghost var f0 := w.Fields();
    CopyGrid(w, s);
    ghost var f1 := w.Fields();
    CopyActors(w, s);
    ghost var f2 := w.Fields();
    CopyLevelState(w, s);
  }

  /** `restore_snapshot`: overwrite the runtime state of `w` with `s` and
      rebuild the hole grid. */
  method RestoreSnapshot(w: WorldState, s: Snapshot)
    modifies w
    ensures w.Fields() == Restored(old(w.Fields()), s)
  {
    CopySnapshot(w, s);
    w.RebuildHoleGrid();
    Timers.HoleGridIsUnique(w.holeGrid, w.holes, w.width, w.height);
  }

  // ---------------------------------------------------------------------
  // Character and word codecs
  // ---------------------------------------------------------------------

  /** `tile_to_char`: the map character of a tile. */
  function TileToChar(t: Tile): (c: char)
    ensures (c == ' ') == (t == Empty)
    ensures !IsSpace(c) || c == ' '
  {
    match t
    case Empty => ' '
    case Brick => '#'
    case Concrete => '='
    case Ladder => 'H'
    case Rope => '-'
    case Gold => '$'
    case HiddenLadder => '~'
    case TrapBrick => 'T'
  }

  /** `char_to_tile`: the tile of a map character; any character that is
      not a tile's gives Empty. */
  function CharToTile(c: char): (t: Tile)
    ensures c !in "#=H-$~T" ==> t == Empty
  {
    match c
    case '#' => Brick
    case '=' => Concrete
    case 'H' => Ladder
    case '-' => Rope
    case '$' => Gold
    case '~' => HiddenLadder
    case 'T' => TrapBrick
    case _ => Empty
  }

  lemma CharToTileInvertsTileToChar(t: Tile)
    ensures CharToTile(TileToChar(t)) == t
  {
  }

  /** `facing_str`. */
  function FacingStr(f: Facing): (s: string)
    ensures |s| == 1 && !IsSpace(s[0]) && s[0] != ','
  {
    match f
    case Left => "L"
    case Right => "R"
  }

  /** `parse_facing`: "L" is Left and anything else is Right. */
  function ParseFacing(s: string): (f: Facing)
    ensures f == Left <==> s == "L"
  {
    if s == "L" then Left else Right
  }

  lemma ParseFacingInvertsFacingStr(f: Facing)
    ensures ParseFacing(FacingStr(f)) == f
  {
  }

  /** `state_str`. */
  function StateStr(s: ActorState): (r: string)
    ensures |r| == 1 && !IsSpace(r[0]) && r[0] != ','
  {
    match s
    case OnGround => "G"
    case Falling => "F"
    case OnLadder => "L"
    case OnRope => "R"
    case InHole => "H"
    case Dead => "D"
  }

  /** `parse_state`: an unknown code reads as OnGround. */
  function ParseState(s: string): (r: ActorState)
    ensures s !in {"G", "F", "L", "R", "H", "D"} ==> r == OnGround
  {
    match s
    case "G" => OnGround
    case "F" => Falling
    case "L" => OnLadder
    case "R" => OnRope
    case "H" => InHole
    case "D" => Dead
    case _ => OnGround
  }

  lemma ParseStateInvertsStateStr(s: ActorState)
    ensures ParseState(StateStr(s)) == s
  {
  }

  // ---------------------------------------------------------------------
  // serialize
  // ---------------------------------------------------------------------

  function Num(n: nat): string
  {
    ShowNat(n)
  }

  function Flag(b: bool): string
  {
    if b then "1" else "0"
  }

  function PlayerFields(p: SnapshotPlayer): seq<string>
  {
    [Num(p.x), Num(p.y), FacingStr(p.facing), StateStr(p.state), Num(p.moveCooldown)]
  }

  function GuardFields(g: Guard): seq<string>
  {
    [Num(g.id), Num(g.x), Num(g.y), FacingStr(g.facing), StateStr(g.state), Flag(g.carryGold),
     Num(g.carryGoldTimer), Num(g.stuckTimer), Num(g.moveCooldown), Num(g.spawnX), Num(g.spawnY),
     Num(g.respawnTimer), Num(g.separationTimer)]
  }

  function HoleFields(h: Hole): seq<string>
  {
    [Num(h.x), Num(h.y), Num(h.openRemaining), Num(h.closeRemaining)]
  }

  function DigFields(d: DigInProgress): seq<string>
  {
    [Num(d.x), Num(d.y), Num(d.ticksRemaining), Num(d.totalTicks)]
  }

  function RowText(row: seq<Tile>): (s: string)
    ensures |s| == |row| && forall i :: 0 <= i < |row| ==> s[i] == TileToChar(row[i])
  {
    seq(|row|, i requires 0 <= i < |row| => TileToChar(row[i]))
  }

  function GuardLine(g: Guard): string { "guard=" + Join(GuardFields(g), ',') }
  function HoleLine(h: Hole): string { "hole=" + Join(HoleFields(h), ',') }
  function DigLine(d: DigInProgress): string { "dig=" + Join(DigFields(d), ',') }
  function LadderLine(p: (nat, nat)): string { "hidden_ladder=" + Num(p.0) + "," + Num(p.1) }
  function RowLine(row: seq<Tile>): string { "tile_row=" + RowText(row) }

  function Columns(cols: seq<nat>): (r: seq<string>)
    ensures |r| == |cols| && forall i :: 0 <= i < |cols| ==> r[i] == Num(cols[i])
  {
    seq(|cols|, i requires 0 <= i < |cols| => Num(cols[i]))
  }

  /** The scalar lines a snapshot starts with, up to the player line. */
  function SnapshotHead(s: Snapshot): seq<string>
  {
    ["has_snapshot=1", "tick=" + Num(s.tick), "width=" + Num(s.width), "height=" + Num(s.height),
     "gold_remaining=" + Num(s.goldRemaining), "gold_total=" + Num(s.goldTotal),
     "exit_enabled=" + Flag(s.exitEnabled),
     "player_spawn=" + Num(s.playerSpawn.0) + "," + Num(s.playerSpawn.1),
     "player=" + Join(PlayerFields(s.player), ',')]
  }

  function GuardLines(gs: seq<Guard>): (r: seq<string>)
    ensures |r| == |gs| && forall i :: 0 <= i < |gs| ==> r[i] == GuardLine(gs[i])
  {
    seq(|gs|, i requires 0 <= i < |gs| => GuardLine(gs[i]))
  }

  function HoleLines(hs: seq<Hole>): (r: seq<string>)
    ensures |r| == |hs| && forall i :: 0 <= i < |hs| ==> r[i] == HoleLine(hs[i])
  {
    seq(|hs|, i requires 0 <= i < |hs| => HoleLine(hs[i]))
  }

  function DigLines(ds: seq<DigInProgress>): (r: seq<string>)
    ensures |r| == |ds| && forall i :: 0 <= i < |ds| ==> r[i] == DigLine(ds[i])
  {
    seq(|ds|, i requires 0 <= i < |ds| => DigLine(ds[i]))
  }

  function LadderLines(ps: seq<(nat, nat)>): (r: seq<string>)
    ensures |r| == |ps| && forall i :: 0 <= i < |ps| ==> r[i] == LadderLine(ps[i])
  {
    seq(|ps|, i requires 0 <= i < |ps| => LadderLine(ps[i]))
  }

  function RowLines(rows: seq<seq<Tile>>): (r: seq<string>)
    ensures |r| == |rows| && forall i :: 0 <= i < |rows| ==> r[i] == RowLine(rows[i])
  {
    seq(|rows|, i requires 0 <= i < |rows| => RowLine(rows[i]))
  }

  function ColumnLines(cols: seq<nat>): seq<string>
  {
    if |cols| == 0 then [] else ["exit_cols=" + Join(Columns(cols), ',')]
  }

  /** Every line of a snapshot, in the order `serialize` writes them. */
  function SnapshotLines(s: Snapshot): seq<string>
  {
    SnapshotHead(s) + RecordLines(s) + TailLines(s)
  }

  function RecordLines(s: Snapshot): seq<string>
  {
    GuardLines(s.guards) + HoleLines(s.holes) + DigLines(s.digs)
  }

  function TailLines(s: Snapshot): seq<string>
  {
    ColumnLines(s.exitColumns) + LadderLines(s.hiddenLadderPositions) + RowLines(s.tiles)
  }

  function SaveLines(level: nat, score: nat, lives: nat, snapshot: Option<Snapshot>): seq<string>
  {
    ["level=" + Num(level), "score=" + Num(score), "lives=" + Num(lives)]
    + (if snapshot.Some? then SnapshotLines(snapshot.value) else [])
  }

  /** The text `serialize` produces: each line ended by a newline. */
  function SaveText(level: nat, score: nat, lives: nat, snapshot: Option<Snapshot>): string
  {
    Unlines(SaveLines(level, score, lives, snapshot))
  }

  lemma UnlinesSnoc(ls: seq<string>, l: string)
    ensures Unlines(ls + [l]) == Unlines(ls) + l + "\n"
  {
    UnlinesAppend(ls, [l]);
    assert Unlines([l]) == l + "\n" + Unlines([]);
  }

  /** Appends the lines `ls` one by one, each with its newline, to the
      text of the lines `done`. */
  method AppendLines(out: string, ghost done: seq<string>, ls: seq<string>) returns (r: string)
    requires out == Unlines(done)
    ensures r == Unlines(done + ls)
  {
    r := out;
    assert done + ls[..0] == done;
    for i := 0 to |ls|
      invariant r == Unlines(done + ls[..i])
    {
      UnlinesSnoc(done + ls[..i], ls[i]);
      assert done + ls[..i + 1] == done + ls[..i] + [ls[i]];
      r := r + ls[i] + "\n";
    }
    assert ls[..|ls|] == ls;
  }

  lemma SeqAssoc3(a: seq<string>, b: seq<string>, c: seq<string>, d: seq<string>)
    ensures a + b + c + d == a + (b + c + d)
  {
  }

  /** Appends the guard, hole and dig lines of a snapshot. */
  method AppendRecords(out: string, ghost done: seq<string>, s: Snapshot) returns (r: string)
    requires out == Unlines(done)
    ensures r == Unlines(done + RecordLines(s))
  {
    var gl := GuardLines(s.guards);
    var hl := HoleLines(s.holes);
    var dl := DigLines(s.digs);
    r := AppendLines(out, done, gl);
    r := AppendLines(r, done + gl, hl);
    r := AppendLines(r, done + gl + hl, dl);
    SeqAssoc3(done, gl, hl, dl);
  }

  /** Appends the exit column, hidden ladder and tile row lines. */
  method AppendTail(out: string, ghost done: seq<string>, s: Snapshot) returns (r: string)
    requires out == Unlines(done)
    ensures r == Unlines(done + TailLines(s))
  {
    var cl := ColumnLines(s.exitColumns);
    var ll := LadderLines(s.hiddenLadderPositions);
    var rl := RowLines(s.tiles);
    r := AppendLines(out, done, cl);
    r := AppendLines(r, done + cl, ll);
    r := AppendLines(r, done + cl + ll, rl);
    SeqAssoc3(done, cl, ll, rl);
  }

  /** Appends the lines of a snapshot. */
  method AppendSnapshot(out: string, ghost done: seq<string>, s: Snapshot) returns (r: string)
    requires out == Unlines(done)
    ensures r == Unlines(done + SnapshotLines(s))
  {
    var hd := SnapshotHead(s);
    r := AppendLines(out, done, hd);
    r := AppendRecords(r, done + hd, s);
    r := AppendTail(r, done + hd + RecordLines(s), s);
    SeqAssoc3(done, hd, RecordLines(s), TailLines(s));
  }

  /** `serialize`: the header lines, then, for a snapshot, its scalars,
      one line per guard, hole and dig, the exit columns when there are
      any, one line per hidden ladder and one per tile row. */
  method Serialize(level: nat, score: nat, lives: nat, snapshot: Option<Snapshot>) returns (out: string)
    ensures out == SaveText(level, score, lives, snapshot)
  {
    var head := ["level=" + Num(level), "score=" + Num(score), "lives=" + Num(lives)];
    assert Unlines([]) == [];
    out := AppendLines([], [], head);
    assert [] + head == head;
    if snapshot.Some? {
      out := AppendSnapshot(out, head, snapshot.value);
    } else {
      assert SaveLines(level, score, lives, snapshot) == head;
    }
  }

  // ---------------------------------------------------------------------
  // parse_save
  // ---------------------------------------------------------------------

  /** The accumulators `parse_save` updates while it walks the lines. */
  datatype Acc = Acc(
    level: Option<nat>, score: Option<nat>, lives: Option<nat>, hasSnapshot: bool,
    tick: nat, width: nat, height: nat, goldRemaining: nat, goldTotal: nat, exitEnabled: bool,
    playerSpawn: (nat, nat), player: Option<SnapshotPlayer>,
    guards: seq<Guard>, holes: seq<Hole>, digs: seq<DigInProgress>,
    exitColumns: seq<nat>, hiddenLadders: seq<(nat, nat)>, tileRows: seq<seq<Tile>>)

  const Start: Acc := Acc(None, None, None, false, 0, 0, 0, 0, 0, false, (0, 0), None, [], [], [], [], [], [])

  /** `parse().unwrap_or(0)`. */
  function OrZero(n: Option<nat>): nat
  {
    if n.Some? then n.value else 0
  }

  function Usize(s: string): Option<nat> { ParseUint(Trim(s), USIZE_MAX) }
  function U32(s: string): Option<nat> { ParseUint(Trim(s), U32_MAX) }

  /** `parse_player`: at least five comma-separated fields; x, y and the
      cooldown must be numbers. */
  function ParsePlayer(val: string): (r: Option<SnapshotPlayer>)
    ensures |Split(val, ',')| < 5 ==> r.None?
  {
    var p := Split(val, ',');
    if |p| < 5 then None
    else if Usize(p[0]).Some? && Usize(p[1]).Some? && U32(p[4]).Some? then
      Some(SnapshotPlayer(Usize(p[0]).value, Usize(p[1]).value, ParseFacing(Trim(p[2])), ParseState(Trim(p[3])),
                          U32(p[4]).value))
    else None
  }

  /** `parse_guard`: at least thirteen fields; every field but facing,
      state and the carry flag must be a number. */
  function ParseGuard(val: string): (r: Option<Guard>)
    ensures |Split(val, ',')| < 13 ==> r.None?
  {
    var p := Split(val, ',');
    if |p| < 13 then None
    else if Usize(p[0]).Some? && Usize(p[1]).Some? && Usize(p[2]).Some? && U32(p[6]).Some?
            && U32(p[7]).Some? && U32(p[8]).Some? && Usize(p[9]).Some? && Usize(p[10]).Some?
            && U32(p[11]).Some? && U32(p[12]).Some? then
      Some(Guard(Usize(p[0]).value, Usize(p[1]).value, Usize(p[2]).value,
                 ParseFacing(Trim(p[3])), ParseState(Trim(p[4])), Trim(p[5]) == "1",
                 U32(p[6]).value, U32(p[7]).value, U32(p[8]).value,
                 Usize(p[9]).value, Usize(p[10]).value, U32(p[11]).value, U32(p[12]).value))
    else None
  }

  /** `parse_hole`: at least four numeric fields. */
  function ParseHole(val: string): (r: Option<Hole>)
    ensures |Split(val, ',')| < 4 ==> r.None?
  {
    var p := Split(val, ',');
    if |p| < 4 then None
    else if Usize(p[0]).Some? && Usize(p[1]).Some? && U32(p[2]).Some? && U32(p[3]).Some? then
      Some(Hole(Usize(p[0]).value, Usize(p[1]).value, U32(p[2]).value, U32(p[3]).value))
    else None
  }

  /** `parse_dig`: at least four numeric fields. */
  function ParseDig(val: string): (r: Option<DigInProgress>)
    ensures |Split(val, ',')| < 4 ==> r.None?
  {
    var p := Split(val, ',');
    if |p| < 4 then None
    else if Usize(p[0]).Some? && Usize(p[1]).Some? && U32(p[2]).Some? && U32(p[3]).Some? then
      Some(NewDigWithState(Usize(p[0]).value, Usize(p[1]).value, U32(p[2]).value, U32(p[3]).value))
    else None
  }

  /** The numbers among `parts`, in order; the others are dropped. */
  function ParsedColumns(parts: seq<string>): (r: seq<nat>)
    ensures |r| <= |parts|
  {
    if |parts| == 0 then []
    else
      var rest := ParsedColumns(parts[1..]);
      if Usize(parts[0]).Some? then [Usize(parts[0]).value] + rest else rest
  }

  /** A `player_spawn` value: exactly two fields, each read as a number or
      0; anything else keeps the previous spawn. */
  function SpawnOf(val: string, previous: (nat, nat)): (nat, nat)
  {
    var p := Split(val, ',');
    if |p| == 2 then (OrZero(Usize(p[0])), OrZero(Usize(p[1]))) else previous
  }

  /** A `hidden_ladder` value: exactly two numeric fields. */
  function LadderOf(val: string): Option<(nat, nat)>
  {
    var p := Split(val, ',');
    if |p| == 2 && Usize(p[0]).Some? && Usize(p[1]).Some? then Some((Usize(p[0]).value, Usize(p[1]).value))
    else None
  }

  function RowOf(val: string): (row: seq<Tile>)
    ensures |row| == |val| && forall i :: 0 <= i < |val| ==> row[i] == CharToTile(val[i])
  {
    seq(|val|, i requires 0 <= i < |val| => CharToTile(val[i]))
  }

  /** A save line, by the key it starts with, holding the text after the key. */
  datatype Entry =
    LevelEntry(val: string) | ScoreEntry(val: string) | LivesEntry(val: string) | SnapshotFlagEntry | TickEntry(val: string) | WidthEntry(val: string)
    | HeightEntry(val: string) | GoldRemainingEntry(val: string) | GoldTotalEntry(val: string) | ExitEnabledEntry(val: string) | SpawnEntry(val: string) | PlayerEntry(val: string)
    | GuardEntry(val: string) | HoleEntry(val: string) | DigEntry(val: string) | ExitColsEntry(val: string) | HiddenLadderEntry(val: string) | TileRowEntry(val: string)
    | OtherEntry

  /** The text of `line` up to and including its first '='. */
  function KeyOf(line: string): (r: Option<string>)
    ensures r.Some? ==> r.value <= line && |r.value| > 0 && r.value[|r.value| - 1] == '='
  {
    if '=' in line then Some(line[..IndexOf(line, '=') + 1]) else None
  }

  /** A key of the save format: its only '=' is its last character. */
  predicate IsKey(key: string)
  {
    |key| > 0 && key[|key| - 1] == '=' && '=' !in key[..|key| - 1]
  }

  /** For a key, `strip_prefix` succeeding is the same as the line's text
      up to its first '=' being that key. */
  lemma KeyOfIsPrefix(line: string, key: string)
    requires IsKey(key)
    ensures key <= line <==> KeyOf(line) == Some(key)
  {
    if key <= line {
      assert line[|key| - 1] == '=';
      assert line[..|key| - 1] == key[..|key| - 1];
      IndexOfFirst(line, '=', |key| - 1);
      assert line[..|key|] == key;
    }
  }

  /** Which key a line (already trimmed at its end) carries: the first
      matching key wins, and `has_snapshot=1` is recognised only as the
      whole line, surrounding whitespace aside. A key test is the
      `strip_prefix` of the source (`KeyOfIsPrefix`); the value is the
      rest of the line. */
  function Classify(line: string): Entry
  {
    var key := KeyOf(line);
    var rest := if key.Some? then line[|key.value|..] else [];
    if key.Some? && key.value in {"level=", "score=", "lives="} then HeaderEntry(key.value, rest)
    else if Trim(line) == "has_snapshot=1" then SnapshotFlagEntry
    else if key.Some? then SnapshotEntry(key.value, rest)
    else OtherEntry
  }

  /** `key` is the key `name` (the lengths are compared first). */
  predicate KeyIs(key: string, name: string)
  {
    |key| == |name| && key == name
  }

  /** The entry of a header key. */
  function HeaderEntry(key: string, val: string): Entry
  {
    if KeyIs(key, "level=") then LevelEntry(val)
    else if KeyIs(key, "score=") then ScoreEntry(val)
    else if KeyIs(key, "lives=") then LivesEntry(val)
    else OtherEntry
  }

  /** The entry of a snapshot key, in the order the keys are tried. */
  function SnapshotEntry(key: string, val: string): Entry
  {
    if KeyIs(key, "tick=") then TickEntry(val)
    else if KeyIs(key, "width=") then WidthEntry(val)
    else if KeyIs(key, "height=") then HeightEntry(val)
    else if KeyIs(key, "gold_remaining=") then GoldRemainingEntry(val)
    else if KeyIs(key, "gold_total=") then GoldTotalEntry(val)
    else if KeyIs(key, "exit_enabled=") then ExitEnabledEntry(val)
    else if KeyIs(key, "player_spawn=") then SpawnEntry(val)
    else if KeyIs(key, "player=") then PlayerEntry(val)
    else if KeyIs(key, "guard=") then GuardEntry(val)
    else if KeyIs(key, "hole=") then HoleEntry(val)
    else if KeyIs(key, "dig=") then DigEntry(val)
    else if KeyIs(key, "exit_cols=") then ExitColsEntry(val)
    else if KeyIs(key, "hidden_ladder=") then HiddenLadderEntry(val)
    else if KeyIs(key, "tile_row=") then TileRowEntry(val)
    else OtherEntry
  }

  /** What one entry does to the accumulators: a later line for the same
      scalar key overwrites the earlier one, a record line that does not
      parse is skipped and any other line is ignored. */
  function AbsorbEntry(acc: Acc, e: Entry): Acc
  {
    match e
    case LevelEntry(v) => acc.(level := Usize(v))
    case ScoreEntry(v) => acc.(score := U32(v))
    case LivesEntry(v) => acc.(lives := U32(v))
    case SnapshotFlagEntry => acc.(hasSnapshot := true)
    case TickEntry(v) => acc.(tick := OrZero(ParseUint(Trim(v), U64_MAX)))
    case WidthEntry(v) => acc.(width := OrZero(Usize(v)))
    case HeightEntry(v) => acc.(height := OrZero(Usize(v)))
    case GoldRemainingEntry(v) => acc.(goldRemaining := OrZero(Usize(v)))
    case GoldTotalEntry(v) => acc.(goldTotal := OrZero(Usize(v)))
    case ExitEnabledEntry(v) => acc.(exitEnabled := Trim(v) == "1")
    case SpawnEntry(v) => acc.(playerSpawn := SpawnOf(v, acc.playerSpawn))
    case PlayerEntry(v) => acc.(player := ParsePlayer(v))
    case GuardEntry(v) =>
      var g := ParseGuard(v); if g.Some? then acc.(guards := acc.guards + [g.value]) else acc
    case HoleEntry(v) =>
      var h := ParseHole(v); if h.Some? then acc.(holes := acc.holes + [h.value]) else acc
    case DigEntry(v) =>
      var d := ParseDig(v); if d.Some? then acc.(digs := acc.digs + [d.value]) else acc
    case ExitColsEntry(v) => acc.(exitColumns := ParsedColumns(Split(v, ',')))
    case HiddenLadderEntry(v) =>
      var p := LadderOf(v); if p.Some? then acc.(hiddenLadders := acc.hiddenLadders + [p.value]) else acc
    case TileRowEntry(v) => acc.(tileRows := acc.tileRows + [RowOf(v)])
    case OtherEntry => acc
  }

  /** `parse_save` as written: every line, a tile row included, loses its
      trailing whitespace, so a row whose last tiles are Empty comes back
      shorter. */
  function AbsorbAsWritten(acc: Acc, raw: string): Acc
  {
    AbsorbEntry(acc, Classify(TrimEnd(raw)))
  }

  /** `parse_save` with a tile row read from the untrimmed line, so that
      every tile of the row, trailing Empty ones included, comes back. Any
      other line is read as written (`AbsorbKeepsRowsWhole`). */
  function Absorb(acc: Acc, raw: string): Acc
  {
    if "tile_row=" <= raw then acc.(tileRows := acc.tileRows + [RowOf(raw[9..])])
    else AbsorbAsWritten(acc, raw)
  }

  /** `Absorb` differs from the parser as written only in the tile row it
      appends: the whole text after the key rather than its trimmed text. */
  lemma AbsorbKeepsRowsWhole(acc: Acc, raw: string)
    ensures Absorb(acc, raw).(tileRows := acc.tileRows) == AbsorbAsWritten(acc, raw).(tileRows := acc.tileRows)
    ensures "tile_row=" <= raw ==> Absorb(acc, raw).tileRows == acc.tileRows + [RowOf(raw[9..])]
    ensures "tile_row=" <= raw ==> "tile_row=" <= TrimEnd(raw)
                                   && AbsorbAsWritten(acc, raw).tileRows == acc.tileRows + [RowOf(TrimEnd(raw)[9..])]
  {
    if "tile_row=" <= raw {
      TrimKeepsKey(raw, "tile_row=");
      ClassifiedTileRowEntry(TrimEnd(raw));
    }
  }

  /** A line that starts with a key which does not begin "ha" is not the
      snapshot flag. */
  lemma NotSnapshotFlag(line: string, key: string)
    requires IsKey(key) && key <= line && !IsSpace(key[0])
    requires key[0] != 'h' || (|key| > 1 && key[1] != 'a')
    ensures Trim(line) != "has_snapshot=1"
  {
    TrimKeepsKey(line, key);
    assert Trim(line)[0] == key[0];
    if |key| > 1 {
      assert Trim(line)[1] == key[1];
    }
  }

  /** A line carrying a snapshot key is classified by that key. */
  lemma PastFlag(line: string, key: string)
    requires IsKey(key) && key <= line && !IsSpace(key[0])
    requires key[0] != 'h' || (|key| > 1 && key[1] != 'a')
    requires key !in {"level=", "score=", "lives="}
    ensures Classify(line) == SnapshotEntry(key, line[|key|..])
  {
    KeyOfIsPrefix(line, key);
    NotSnapshotFlag(line, key);
  }

  lemma ClassifiedLevelEntry(line: string)
    requires "level=" <= line
    ensures Classify(line) == LevelEntry(line[6..])
  {
    KeyOfIsPrefix(line, "level=");
  }

  lemma ClassifiedScoreEntry(line: string)
    requires "score=" <= line
    ensures Classify(line) == ScoreEntry(line[6..])
  {
    KeyOfIsPrefix(line, "score=");
  }

  lemma ClassifiedLivesEntry(line: string)
    requires "lives=" <= line
    ensures Classify(line) == LivesEntry(line[6..])
  {
    KeyOfIsPrefix(line, "lives=");
  }

  lemma ClassifiedTickEntry(line: string)
    requires "tick=" <= line
    ensures Classify(line) == TickEntry(line[5..])
  {
    var key := "tick=";
    assert IsKey(key) && !IsSpace(key[0]) && key !in {"level=", "score=", "lives="};
    PastFlag(line, key);
    assert SnapshotEntry(key, line[5..]) == TickEntry(line[5..]);
  }

  lemma ClassifiedWidthEntry(line: string)
    requires "width=" <= line
    ensures Classify(line) == WidthEntry(line[6..])
  {
    var key := "width=";
    assert IsKey(key) && !IsSpace(key[0]) && key !in {"level=", "score=", "lives="};
    PastFlag(line, key);
    assert SnapshotEntry(key, line[6..]) == WidthEntry(line[6..]);
  }

  lemma ClassifiedHeightEntry(line: string)
    requires "height=" <= line
    ensures Classify(line) == HeightEntry(line[7..])
  {
    var key := "height=";
    assert IsKey(key) && !IsSpace(key[0]) && key !in {"level=", "score=", "lives="};
    PastFlag(line, key);
    assert SnapshotEntry(key, line[7..]) == HeightEntry(line[7..]);
  }

  lemma ClassifiedGoldRemainingEntry(line: string)
    requires "gold_remaining=" <= line
    ensures Classify(line) == GoldRemainingEntry(line[15..])
  {
    var key := "gold_remaining=";
    assert IsKey(key) && !IsSpace(key[0]) && key !in {"level=", "score=", "lives="};
    PastFlag(line, key);
    assert SnapshotEntry(key, line[15..]) == GoldRemainingEntry(line[15..]);
  }

  lemma ClassifiedGoldTotalEntry(line: string)
    requires "gold_total=" <= line
    ensures Classify(line) == GoldTotalEntry(line[11..])
  {
    var key := "gold_total=";
    assert IsKey(key) && !IsSpace(key[0]) && key !in {"level=", "score=", "lives="};
    PastFlag(line, key);
    assert SnapshotEntry(key, line[11..]) == GoldTotalEntry(line[11..]);
  }

  lemma ClassifiedExitEnabledEntry(line: string)
    requires "exit_enabled=" <= line
    ensures Classify(line) == ExitEnabledEntry(line[13..])
  {
    var key := "exit_enabled=";
    assert IsKey(key) && !IsSpace(key[0]) && key !in {"level=", "score=", "lives="};
    PastFlag(line, key);
    assert SnapshotEntry(key, line[13..]) == ExitEnabledEntry(line[13..]);
  }

  lemma ClassifiedSpawnEntry(line: string)
    requires "player_spawn=" <= line
    ensures Classify(line) == SpawnEntry(line[13..])
  {
    var key := "player_spawn=";
    assert IsKey(key) && !IsSpace(key[0]) && key !in {"level=", "score=", "lives="};
    PastFlag(line, key);
    assert SnapshotEntry(key, line[13..]) == SpawnEntry(line[13..]);
  }

  lemma ClassifiedPlayerEntry(line: string)
    requires "player=" <= line
    ensures Classify(line) == PlayerEntry(line[7..])
  {
    var key := "player=";
    assert IsKey(key) && !IsSpace(key[0]) && key !in {"level=", "score=", "lives="};
    PastFlag(line, key);
    assert SnapshotEntry(key, line[7..]) == PlayerEntry(line[7..]);
  }

  lemma ClassifiedGuardEntry(line: string)
    requires "guard=" <= line
    ensures Classify(line) == GuardEntry(line[6..])
  {
    var key := "guard=";
    assert IsKey(key) && !IsSpace(key[0]) && key !in {"level=", "score=", "lives="};
    PastFlag(line, key);
    assert SnapshotEntry(key, line[6..]) == GuardEntry(line[6..]);
  }

  lemma ClassifiedHoleEntry(line: string)
    requires "hole=" <= line
    ensures Classify(line) == HoleEntry(line[5..])
  {
    var key := "hole=";
    assert IsKey(key) && !IsSpace(key[0]) && key !in {"level=", "score=", "lives="};
    PastFlag(line, key);
    assert SnapshotEntry(key, line[5..]) == HoleEntry(line[5..]);
  }

  lemma ClassifiedDigEntry(line: string)
    requires "dig=" <= line
    ensures Classify(line) == DigEntry(line[4..])
  {
    var key := "dig=";
    assert IsKey(key) && !IsSpace(key[0]) && key !in {"level=", "score=", "lives="};
    PastFlag(line, key);
    assert SnapshotEntry(key, line[4..]) == DigEntry(line[4..]);
  }

  lemma ClassifiedExitColsEntry(line: string)
    requires "exit_cols=" <= line
    ensures Classify(line) == ExitColsEntry(line[10..])
  {
    var key := "exit_cols=";
    assert IsKey(key) && !IsSpace(key[0]) && key !in {"level=", "score=", "lives="};
    PastFlag(line, key);
    assert SnapshotEntry(key, line[10..]) == ExitColsEntry(line[10..]);
  }

  lemma ClassifiedHiddenLadderEntry(line: string)
    requires "hidden_ladder=" <= line
    ensures Classify(line) == HiddenLadderEntry(line[14..])
  {
    var key := "hidden_ladder=";
    assert IsKey(key) && !IsSpace(key[0]) && key !in {"level=", "score=", "lives="};
    PastFlag(line, key);
    assert SnapshotEntry(key, line[14..]) == HiddenLadderEntry(line[14..]);
  }

  lemma ClassifiedTileRowEntry(line: string)
    requires "tile_row=" <= line
    ensures Classify(line) == TileRowEntry(line[9..])
  {
    var key := "tile_row=";
    assert IsKey(key) && !IsSpace(key[0]) && key !in {"level=", "score=", "lives="};
    PastFlag(line, key);
    assert SnapshotEntry(key, line[9..]) == TileRowEntry(line[9..]);
  }

  /** Trimming a line that starts with a key keeps the key at its head. */
  lemma TrimKeepsKey(line: string, key: string)
    requires key <= line && |key| > 0 && !IsSpace(key[0]) && !IsSpace(key[|key| - 1])
    ensures key <= TrimEnd(line) && key <= Trim(line)
  {
    var e := TrimEnd(line);
    TrimEndCutsSpace(line);
    TrimStartCutsSpace(e);
    assert line[|key| - 1] == key[|key| - 1];
    assert |e| >= |key|;
    assert e[..|key|] == line[..|key|];
    var t := TrimStart(e);
    assert e[0] == key[0];
    assert |t| == |e|;
    assert t == e;
  }

  /** The accumulators after the lines `ls`, starting from `acc`. */
  function AbsorbAll(acc: Acc, ls: seq<string>): Acc
    decreases |ls|
  {
    if |ls| == 0 then acc else AbsorbAll(Absorb(acc, ls[0]), ls[1..])
  }

  /** The accumulators after the lines `ls` as `parse_save` is written:
      every line, tile rows included, read by `AbsorbAsWritten`. */
  function AbsorbAllAsWritten(acc: Acc, ls: seq<string>): Acc
    decreases |ls|
  {
    if |ls| == 0 then acc else AbsorbAllAsWritten(AbsorbAsWritten(acc, ls[0]), ls[1..])
  }

  /** The result `parse_save` builds from its accumulators: a snapshot
      exactly when `has_snapshot=1` was seen, the player line parsed and
      there is at least one tile row; and a save exactly when level, score
      and lives are all known. */
  function Finish(acc: Acc): (r: Option<SaveData>)
    ensures r.Some? <==> acc.level.Some? && acc.score.Some? && acc.lives.Some?
    ensures r.Some? ==> r.value.level == acc.level.value && r.value.score == acc.score.value
                        && r.value.lives == acc.lives.value
    ensures r.Some? ==> (r.value.snapshot.Some? <==> acc.hasSnapshot && acc.player.Some? && |acc.tileRows| > 0)
  {
    var snapshot :=
      if acc.hasSnapshot && acc.player.Some? && |acc.tileRows| > 0 then
        Some(Snapshot(acc.tick, acc.width, acc.height, acc.tileRows, acc.player.value, acc.guards, acc.holes,
                      acc.digs, acc.goldRemaining, acc.goldTotal, acc.exitEnabled, acc.exitColumns,
                      acc.hiddenLadders, acc.playerSpawn))
      else None;
    if acc.level.Some? && acc.score.Some? && acc.lives.Some? then
      Some(SaveData(acc.level.value, acc.score.value, acc.lives.value, snapshot))
    else None
  }

  function ParseSaveText(content: string): Option<SaveData>
  {
    Finish(AbsorbAll(Start, Lines(content)))
  }

  /** `parse_save` as written, which trims the end of a tile row line. */
  function ParseSaveTextAsWritten(content: string): Option<SaveData>
  {
    Finish(AbsorbAllAsWritten(Start, Lines(content)))
  }

  /** `parse_save`: walks the lines of `content`, updating the
      accumulators, then builds the result. */
  method ParseSave(content: string) returns (r: Option<SaveData>)
    ensures r == ParseSaveText(content)
  {
    var ls := Lines(content);
    var acc := Start;
    for i := 0 to |ls|
      invariant AbsorbAll(acc, ls[i..]) == AbsorbAll(Start, ls)
    {
      assert ls[i..][1..] == ls[i + 1..];
      acc := Absorb(acc, ls[i]);
    }
    assert ls[|ls|..] == [];
    r := Finish(acc);
  }
}
