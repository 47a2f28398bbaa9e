/** The converter from the original game's binary level arrays to the
    level text format: a header (player, guards, exit ladders, respawn
    points, body encoding), a map body stored as row or column run-length
    bytes or as nibble-packed rows, and the text writer. */
module ConvertLevels {
  import opened Common
  import opened Text

  const WIDTH: nat := 28
  const HEIGHT: nat := 16
  /** The number of cells of a map. */
  const CELLS: nat := 448
  /** The bytes of a nibble-packed body: 14 per row. */
  const GRID_BYTES: nat := 224

  /** The tile ids of the binary format, as level text characters;
      unknown ids become blanks. */
  function TileChar(id: nat): (c: char)
    ensures c in " #=H-T$"
    ensures c == ' ' <==> id == 0 || id > 6
  {
    match id
    case 1 => '#'
    case 2 => '='
    case 3 => 'H'
    case 4 => '-'
    case 5 => 'T'
    case 6 => '$'
    case _ => ' '
  }

  // ---------------------------------------------------------------------
  // Bytes
  // ---------------------------------------------------------------------

  /** The tile of a run-length byte: its upper three bits. */
  function RunTile(b: bv8): nat
  {
    ((b >> 5) & 0x07) as nat
  }

  /** The length of a run-length byte's run: its lower five bits. */
  function RunLength(b: bv8): nat
  {
    (b & 0x1F) as nat
  }

  /** The high nibble of a packed byte. */
  function HighNibble(b: bv8): nat
  {
    ((b >> 4) & 0x0F) as nat
  }

  /** The low nibble of a packed byte. */
  function LowNibble(b: bv8): nat
  {
    (b & 0x0F) as nat
  }

  /** A run-length byte is `32 * tile + run`. */
  lemma RunByteSplit(b: bv8)
    ensures RunTile(b) == b as nat / 32 && RunLength(b) == b as nat % 32
    ensures RunTile(b) < 8 && RunLength(b) < 32
  {
  }

  /** A packed byte is `16 * high + low`. */
  lemma NibbleSplit(b: bv8)
    ensures HighNibble(b) == b as nat / 16 && LowNibble(b) == b as nat % 16
    ensures HighNibble(b) < 16 && LowNibble(b) < 16
  {
  }

  // ---------------------------------------------------------------------
  // The byte reader
  // ---------------------------------------------------------------------

  /** The data of one level array and `decode_level`'s read position. */
  class Reader {
    const data: seq<bv8>
    var pos: nat

    constructor (data: seq<bv8>)
      ensures this.data == data && pos == 0
    {
      this.data := data;
      pos := 0;
    }

    /** `read_byte`: the byte at the read position, which then advances;
        past the end of the data, the error that aborts the decoding
        (None), with the position unchanged. */
    method ReadByte() returns (b: Option<bv8>)
      modifies this
      ensures old(pos) < |data| ==> b == Some(data[old(pos)]) && pos == old(pos) + 1
      ensures old(pos) >= |data| ==> b.None? && pos == old(pos)
    {
      if pos >= |data| {
        return None;
      }
      b := Some(data[pos]);
      pos := pos + 1;
    }
  }

  // ---------------------------------------------------------------------
  // The header
  // ---------------------------------------------------------------------

  /** The `n` coordinate pairs stored from `start` on, x byte first. */
  function PairsAt(data: seq<bv8>, start: nat, n: nat): (r: seq<(nat, nat)>)
    requires start + 2 * n <= |data|
  {
    seq(n, i requires 0 <= i < n => (data[start + 2 * i] as nat, data[start + 2 * i + 1] as nat))
  }

  /** The header: the player's start, the guards, the exit ladders, and
      where the respawn points begin. */
  datatype Header = Header(player: (nat, nat), enemies: seq<(nat, nat)>, exitLadders: seq<(nat, nat)>, end: nat)

  /** The header of a level array: player x and y, a guard count and that
      many pairs, an exit-ladder count and that many pairs; None when the
      data ends first. */
  function HeaderOf(data: seq<bv8>): (h: Option<Header>)
    ensures h.Some? ==> h.value.end <= |data| && |h.value.enemies| < 256 && |h.value.exitLadders| < 256
    ensures h.Some? ==> h.value.end == 4 + 2 * |h.value.enemies| + 2 * |h.value.exitLadders|
  {
    if |data| < 3 then None
    else
      var enemyCount := data[2] as nat;
      var ladderAt := 3 + 2 * enemyCount;
      if |data| <= ladderAt then None
      else
        var ladderCount := data[ladderAt] as nat;
        var end := ladderAt + 1 + 2 * ladderCount;
        if |data| < end then None
        else Some(Header((data[0] as nat, data[1] as nat), PairsAt(data, 3, enemyCount),
          PairsAt(data, ladderAt + 1, ladderCount), end))
  }

  /** One of the header's counted loops: `n` pairs read byte by byte. */
  method ReadPairs(rd: Reader, n: nat) returns (ps: Option<seq<(nat, nat)>>)
    requires rd.pos <= |rd.data|
    modifies rd
    ensures old(rd.pos) + 2 * n <= |rd.data| ==> ps == Some(PairsAt(rd.data, old(rd.pos), n)) && rd.pos == old(rd.pos) + 2 * n
    ensures old(rd.pos) + 2 * n > |rd.data| ==> ps.None?
  {
    ghost var p0 := rd.pos;
    var acc: seq<(nat, nat)> := [];
    var k := 0;
    while k < n
      invariant k <= n && rd.pos == p0 + 2 * k <= |rd.data|
      invariant acc == PairsAt(rd.data, p0, k)
    {
      var x := rd.ReadByte();
      if x.None? {
        return None;
      }
      var y := rd.ReadByte();
      if y.None? {
        return None;
      }
      acc := acc + [(x.value as nat, y.value as nat)];
      k := k + 1;
    }
    return Some(acc);
  }

  /** The header part of `decode_level`. */
  method ReadHeader(rd: Reader) returns (h: Option<Header>)
    requires rd.pos == 0
    modifies rd
    ensures h == HeaderOf(rd.data)
    ensures h.Some? ==> rd.pos == h.value.end
  {
    var px := rd.ReadByte();
    if px.None? {
      return None;
    }
    var py := rd.ReadByte();
    if py.None? {
      return None;
    }
    var enemyCount := rd.ReadByte();
    if enemyCount.None? {
      return None;
    }
    var enemies := ReadPairs(rd, enemyCount.value as nat);
    if enemies.None? {
      return None;
    }
    var ladderCount := rd.ReadByte();
    if ladderCount.None? {
      return None;
    }
    var ladders := ReadPairs(rd, ladderCount.value as nat);
    if ladders.None? {
      return None;
    }
    return Some(Header((px.value as nat, py.value as nat), enemies.value, ladders.value, rd.pos));
  }

  // ---------------------------------------------------------------------
  // The format probe
  // ---------------------------------------------------------------------

  /** The respawn-point counts the probe tries, in order. */
  const TRIES: seq<nat> := [4, 0, 1, 2, 3, 5, 6]

  /** What the probe settles: the respawn points, the body encoding (0 row
      run-length, 1 column run-length, 2 nibble-packed) and where the body
      starts. */
  datatype Format = Format(respawns: seq<(nat, nat)>, encryption: nat, bodyStart: nat)

  /** The probe's walk over run-length bytes from `p`, the cursor at
      `cursor`: the cursor where it stops (the map full, the data ended or
      a zero run) and whether it stopped at a tile id above 6. */
  function ProbeRuns(data: seq<bv8>, p: nat, cursor: nat): (r: (nat, bool))
    ensures r.0 >= cursor
    decreases |data| - p
  {
    if cursor >= CELLS || p >= |data| then (cursor, false)
    else if RunLength(data[p]) == 0 then (cursor, false)
    else if RunTile(data[p]) > 6 then (cursor, true)
    else ProbeRuns(data, p + 1, cursor + RunLength(data[p]))
  }

  /** A run-length body from `p` that the probe accepts: its runs, before
      any zero run, fill exactly the 448 cells with known tiles. */
  predicate RunsFit(data: seq<bv8>, p: nat)
  {
    var (cursor, bad) := ProbeRuns(data, p, 0);
    !bad && cursor == CELLS
  }

  /** The probe's check of a body of encoding `enc` starting at `p`. */
  predicate BodyFits(data: seq<bv8>, p: nat, enc: nat)
  {
    if enc <= 1 then RunsFit(data, p) else |data| >= p + GRID_BYTES
  }

  /** One try of the probe: `rc` respawn pairs from `start`, then an
      encoding byte 0, 1 or 2 whose body passes the check. */
  function TryFormat(data: seq<bv8>, start: nat, rc: nat): (r: Option<Format>)
    ensures r.Some? ==> r.value.encryption <= 2 && r.value.bodyStart == start + 2 * rc + 1 <= |data|
    ensures r.Some? ==> BodyFits(data, r.value.bodyStart, r.value.encryption) && |r.value.respawns| == rc
  {
    var p := start + 2 * rc;
    if p >= |data| then None
    else
      var enc := data[p] as nat;
      if enc > 2 || !BodyFits(data, p + 1, enc) then None
      else Some(Format(PairsAt(data, start, rc), enc, p + 1))
  }

  /** The first try in `tries` that succeeds. */
  function FirstFormat(data: seq<bv8>, start: nat, tries: seq<nat>): (r: Option<Format>)
    ensures r.Some? ==> exists i :: (0 <= i < |tries| && r == TryFormat(data, start, tries[i])
      && forall j :: 0 <= j < i ==> TryFormat(data, start, tries[j]).None?)
    ensures r.None? ==> forall i :: 0 <= i < |tries| ==> TryFormat(data, start, tries[i]).None?
    ensures r.Some? ==> r.value.encryption <= 2 && r.value.bodyStart <= |data|
    ensures r.Some? ==> BodyFits(data, r.value.bodyStart, r.value.encryption)
  {
    if |tries| == 0 then None
    else
      var r := TryFormat(data, start, tries[0]);
      if r.Some? then r
      else
        var rest := FirstFormat(data, start, tries[1..]);
        assert rest.Some? ==> exists i :: (0 <= i < |tries| && rest == TryFormat(data, start, tries[i])
          && forall j :: 0 <= j < i ==> TryFormat(data, start, tries[j]).None?) by {
          if rest.Some? {
            var i :| 0 <= i < |tries[1..]| && rest == TryFormat(data, start, tries[1..][i])
              && forall j :: 0 <= j < i ==> TryFormat(data, start, tries[1..][j]).None?;
            assert rest == TryFormat(data, start, tries[i + 1]);
            forall j | 0 <= j < i + 1
              ensures TryFormat(data, start, tries[j]).None?
            {
              if j > 0 {
                assert tries[j] == tries[1..][j - 1];
              }
            }
          }
        }
        rest
  }

  /** The probe's run-length check from `p`. */
  method CheckRuns(data: seq<bv8>, p: nat) returns (ok: bool)
    ensures ok == RunsFit(data, p)
  {
    var testPos := p;
    var cursor: nat := 0;
    ok := true;
    while cursor < CELLS && testPos < |data|
      invariant ProbeRuns(data, testPos, cursor) == ProbeRuns(data, p, 0)
      decreases |data| - testPos
    {
      var b := data[testPos];
      var tile := (b >> 5) & 0x07;
      var run := b & 0x1F;
      if run == 0 {
        break;
      }
      if tile > 6 {
        ok := false;
        break;
      }
      cursor := cursor + run as nat;
      testPos := testPos + 1;
    }
    if cursor != CELLS {
      ok := false;
    }
  }

  /** One pass of the probe's loop: `rc` respawn pairs from the saved
      position, the encoding byte and the body check. */
  method TryRespawns(data: seq<bv8>, start: nat, rc: nat) returns (fmt: Option<Format>)
    requires start <= |data|
    ensures fmt == TryFormat(data, start, rc)
  {
    var pos := start;
    var rp: seq<(nat, nat)> := [];
    var valid := true;
    var k := 0;
    while k < rc
      invariant k <= rc && pos == start + 2 * k
      invariant valid ==> pos <= |data| && rp == PairsAt(data, start, k)
      invariant !valid ==> start + 2 * rc > |data|
    {
      if pos + 1 >= |data| {
        valid := false;
        break;
      }
      rp := rp + [(data[pos] as nat, data[pos + 1] as nat)];
      pos := pos + 2;
      k := k + 1;
    }
    if !valid || pos >= |data| {
      return None;
    }
    var enc := data[pos];
    if enc !in {0, 1, 2} {
      return None;
    }
    var testPos := pos + 1;
    var ok := true;
    if enc in {0, 1} {
      ok := CheckRuns(data, testPos);
    } else if enc == 2 {
      if |data| - testPos < GRID_BYTES {
        ok := false;
      }
    }
    if ok {
      return Some(Format(rp, enc as nat, pos + 1));
    }
    return None;
  }

  /** The probe of `decode_level`: the respawn counts are tried in turn
      from the end of the header; the first that leads to a valid encoding
      byte and body wins, and the read position moves past the encoding
      byte. */
  method ProbeFormat(rd: Reader) returns (fmt: Option<Format>)
    requires rd.pos <= |rd.data|
    modifies rd
    ensures fmt == FirstFormat(rd.data, old(rd.pos), TRIES)
    ensures fmt.Some? ==> rd.pos == fmt.value.bodyStart
  {
    var savedPos := rd.pos;
    var i := 0;
    while i < |TRIES|
      invariant i <= |TRIES|
      invariant FirstFormat(rd.data, savedPos, TRIES[i..]) == FirstFormat(rd.data, savedPos, TRIES)
    {
      assert TRIES[i..][1..] == TRIES[i + 1..];
      var r := TryRespawns(rd.data, savedPos, TRIES[i]);
      if r.Some? {
        rd.pos := r.value.bodyStart;
        return r;
      }
      i := i + 1;
    }
    return None;
  }

  // ---------------------------------------------------------------------
  // Cells and cursors
  // ---------------------------------------------------------------------

  /** The all-blank map `decode_level` starts from. */
  function BlankGrid(): (g: seq<seq<nat>>)
    ensures IsGrid(g, WIDTH, HEIGHT)
  {
    seq(HEIGHT, _ => seq(WIDTH, _ => 0))
  }

  /** The cell a run-length cursor writes: left to right then top to
      bottom for row encoding, top to bottom then left to right for column
      encoding. */
  function CellOf(column: bool, c: nat): (nat, nat)
  {
    if column then (c / HEIGHT, c % HEIGHT) else (c % WIDTH, c / WIDTH)
  }

  /** The cursor that writes cell `(x, y)`. */
  function CursorOf(column: bool, x: nat, y: nat): nat
  {
    if column then x * HEIGHT + y else y * WIDTH + x
  }

  /** Each cursor below 448 writes a cell of the map, and it is the cursor
      of that cell. */
  lemma CursorCellOnMap(column: bool, c: nat)
    requires c < CELLS
    ensures CellOf(column, c).0 < WIDTH && CellOf(column, c).1 < HEIGHT
    ensures CursorOf(column, CellOf(column, c).0, CellOf(column, c).1) == c
  {
  }

  /** Each cell of the map has a cursor below 448, which writes that
      cell: cursors and cells are in one-to-one correspondence. */
  lemma CellCursorOnMap(column: bool, x: nat, y: nat)
    requires x < WIDTH && y < HEIGHT
    ensures CursorOf(column, x, y) < CELLS && CellOf(column, CursorOf(column, x, y)) == (x, y)
  {
  }

  /** Cursor `c` writes cell `(x, y)` and no other. */
  lemma CursorWritesOneCell(column: bool, c: nat)
    requires c < CELLS
    ensures forall y: nat, x: nat :: x < WIDTH && y < HEIGHT ==>
      (CursorOf(column, x, y) == c <==> (x, y) == CellOf(column, c))
  {
    forall y: nat, x: nat | x < WIDTH && y < HEIGHT
      ensures CursorOf(column, x, y) == c <==> (x, y) == CellOf(column, c)
    {
      CellCursorOnMap(column, x, y);
      CursorCellOnMap(column, c);
    }
  }

  // ---------------------------------------------------------------------
  // Run-length bodies
  // ---------------------------------------------------------------------

  /** The tile the run-length body from `p` (the cursor at `cursor`) leaves
      at cursor `t`: the tile of the run covering `t`, blank when that
      tile id is above 6 or when a zero run or the end of the data comes
      first. */
  function RunCell(data: seq<bv8>, p: nat, cursor: nat, t: nat): (r: nat)
    requires cursor <= t < CELLS
    ensures r <= 6
    decreases |data| - p
  {
    if p >= |data| || RunLength(data[p]) == 0 then 0
    else if t < cursor + RunLength(data[p]) then (if RunTile(data[p]) <= 6 then RunTile(data[p]) else 0)
    else RunCell(data, p + 1, cursor + RunLength(data[p]), t)
  }

  /** The map a run-length body from `p` decodes to. */
  function RunGrid(data: seq<bv8>, p: nat, column: bool): (g: seq<seq<nat>>)
    ensures IsGrid(g, WIDTH, HEIGHT)
  {
    seq(HEIGHT, y requires 0 <= y < HEIGHT => seq(WIDTH, x requires 0 <= x < WIDTH =>
      (CellCursorOnMap(column, x, y); RunCell(data, p, 0, CursorOf(column, x, y)))))
  }

  /** The cells whose cursor is below `c` hold their tile; the others are
      still blank. */
  ghost predicate RunsUpTo(g: seq<seq<nat>>, data: seq<bv8>, p0: nat, column: bool, c: nat)
  {
    IsGrid(g, WIDTH, HEIGHT)
    && forall y: nat, x: nat :: y < HEIGHT && x < WIDTH ==>
      g[y][x] == if CursorOf(column, x, y) < c then RunCell(data, p0, 0, CursorOf(column, x, y)) else 0
  }

  /** From cursor `c` on, the runs from `p` give the same tiles as the
      whole body from `p0`. */
  ghost predicate TailAgrees(data: seq<bv8>, p0: nat, p: nat, c: nat)
  {
    forall t :: c <= t < CELLS ==> RunCell(data, p0, 0, t) == RunCell(data, p, c, t)
  }

  /** The inner loop of the run-length body: up to `run` cells from the
      cursor on get `tile` (when it is a known id), stopping at the end of
      the map. */
  method WriteRun(grid: seq<seq<nat>>, cursor: nat, run: nat, tile: nat, column: bool) returns (g: seq<seq<nat>>, c: nat)
    requires IsGrid(grid, WIDTH, HEIGHT) && cursor <= CELLS
    ensures IsGrid(g, WIDTH, HEIGHT)
    ensures c == if cursor + run < CELLS then cursor + run else CELLS
    ensures forall y: nat, x: nat :: y < HEIGHT && x < WIDTH ==>
      g[y][x] == if cursor <= CursorOf(column, x, y) < c && tile <= 6 then tile else grid[y][x]
  {
    g, c := grid, cursor;
    var k := 0;
    while k < run
      invariant k <= run && c == cursor + k <= CELLS && IsGrid(g, WIDTH, HEIGHT)
      invariant forall y: nat, x: nat :: y < HEIGHT && x < WIDTH ==>
        g[y][x] == if cursor <= CursorOf(column, x, y) < c && tile <= 6 then tile else grid[y][x]
    {
      if c >= CELLS {
        break;
      }
      var x, y;
      if !column {
        x, y := c % WIDTH, c / WIDTH;
      } else {
        x, y := c / HEIGHT, c % HEIGHT;
      }
      CursorWritesOneCell(column, c);
      if x < WIDTH && y < HEIGHT && tile <= 6 {
        g := SetCell(g, x, y, tile);
      }
      c := c + 1;
      k := k + 1;
    }
  }

  /** One run written keeps the loop's picture of the map and of the rest
      of the body. */
  lemma RunStep(before: seq<seq<nat>>, g: seq<seq<nat>>, data: seq<bv8>, p0: nat, p: nat, c0: nat, c: nat, column: bool)
    requires RunsUpTo(before, data, p0, column, c0) && TailAgrees(data, p0, p, c0)
    requires p < |data| && RunLength(data[p]) > 0 && c0 < CELLS
    requires IsGrid(g, WIDTH, HEIGHT)
    requires c == if c0 + RunLength(data[p]) < CELLS then c0 + RunLength(data[p]) else CELLS
    requires forall y: nat, x: nat :: y < HEIGHT && x < WIDTH ==>
      g[y][x] == if c0 <= CursorOf(column, x, y) < c && RunTile(data[p]) <= 6 then RunTile(data[p]) else before[y][x]
    ensures RunsUpTo(g, data, p0, column, c) && TailAgrees(data, p0, p + 1, c)
  {
    forall y: nat, x: nat | y < HEIGHT && x < WIDTH
      ensures g[y][x] == if CursorOf(column, x, y) < c then RunCell(data, p0, 0, CursorOf(column, x, y)) else 0
    {
      var t := CursorOf(column, x, y);
      CellCursorOnMap(column, x, y);
      if c0 <= t < c {
        assert RunCell(data, p0, 0, t) == RunCell(data, p, c0, t);
      }
    }
    forall t | c <= t < CELLS
      ensures RunCell(data, p0, 0, t) == RunCell(data, p + 1, c, t)
    {
      assert RunCell(data, p0, 0, t) == RunCell(data, p, c0, t);
    }
  }

  /** When the body stops (the map full, the data ended or a zero run),
      the map is the decoded one. */
  lemma RunsDone(g: seq<seq<nat>>, data: seq<bv8>, p0: nat, p: nat, c: nat, column: bool)
    requires RunsUpTo(g, data, p0, column, c) && TailAgrees(data, p0, p, c)
    requires c >= CELLS || p >= |data| || RunLength(data[p]) == 0
    ensures g == RunGrid(data, p0, column)
  {
    var r := RunGrid(data, p0, column);
    forall y | 0 <= y < HEIGHT
      ensures g[y] == r[y]
    {
      forall x | 0 <= x < WIDTH
        ensures g[y][x] == r[y][x]
      {
        var t := CursorOf(column, x, y);
        CellCursorOnMap(column, x, y);
        if t >= c {
          assert RunCell(data, p0, 0, t) == RunCell(data, p, c, t);
        }
      }
    }
  }

  /** The run-length body of `decode_level`: bytes are read while the map
      is not full and the data lasts, up to a zero run. */
  method DecodeRuns(rd: Reader, column: bool) returns (grid: seq<seq<nat>>)
    requires rd.pos <= |rd.data|
    modifies rd
    ensures grid == RunGrid(rd.data, old(rd.pos), column)
  {
    ghost var p0 := rd.pos;
    grid := BlankGrid();
    var cursor: nat := 0;
    ghost var stopped := false;
    while cursor < CELLS
      invariant cursor <= CELLS && p0 <= rd.pos <= |rd.data|
      invariant RunsUpTo(grid, rd.data, p0, column, cursor)
      invariant TailAgrees(rd.data, p0, rd.pos, cursor)
      decreases |rd.data| - rd.pos
    {
      if rd.pos >= |rd.data| {
        break;
      }
      ghost var p := rd.pos;
      var b := rd.ReadByte();
      var tile := RunTile(b.value);
      var run := RunLength(b.value);
      if run == 0 {
        RunsDone(grid, rd.data, p0, p, cursor, column);
        stopped := true;
        break;
      }
      ghost var before, c0 := grid, cursor;
      grid, cursor := WriteRun(grid, cursor, run, tile, column);
      RunStep(before, grid, rd.data, p0, p, c0, cursor, column);
    }
    if !stopped {
      RunsDone(grid, rd.data, p0, rd.pos, cursor, column);
    }
  }

  // ---------------------------------------------------------------------
  // Nibble-packed bodies
  // ---------------------------------------------------------------------

  /** The tile the nibble-packed body from `p` gives cell `(x, y)`: byte
      `x / 2` of row `y` holds the even column in its high nibble and the
      odd column in its low nibble; an id above 6 leaves the cell blank. */
  function NibbleCell(data: seq<bv8>, p: nat, x: nat, y: nat): (r: nat)
    requires p + 14 * y + x / 2 < |data|
    ensures r <= 6
  {
    var b := data[p + 14 * y + x / 2];
    var t := if x % 2 == 0 then HighNibble(b) else LowNibble(b);
    if t <= 6 then t else 0
  }

  /** The map a nibble-packed body from `p` decodes to. */
  function NibbleGrid(data: seq<bv8>, p: nat): (g: seq<seq<nat>>)
    requires p + GRID_BYTES <= |data|
    ensures IsGrid(g, WIDTH, HEIGHT)
  {
    seq(HEIGHT, y requires 0 <= y < HEIGHT => seq(WIDTH, x requires 0 <= x < WIDTH => NibbleCell(data, p, x, y)))
  }

  /** The cells of the rows before `y`, and the first `xr` cells of row
      `y`, hold their tile; the others are still blank. */
  ghost predicate NibblesUpTo(g: seq<seq<nat>>, data: seq<bv8>, p0: nat, y: nat, xr: nat)
  {
    IsGrid(g, WIDTH, HEIGHT) && xr <= WIDTH && p0 + 14 * y + (xr + 1) / 2 <= |data|
    && forall y': nat, x': nat :: y' < HEIGHT && x' < WIDTH ==>
      g[y'][x'] == if y' < y || (y' == y && x' < xr) then NibbleCell(data, p0, x', y') else 0
  }

  /** One nibble of a packed row sets its cell (when it is a known id). */
  lemma NibbleStep(before: seq<seq<nat>>, g: seq<seq<nat>>, data: seq<bv8>, p0: nat, y: nat, x: nat, t: nat)
    requires y < HEIGHT && x < WIDTH && NibblesUpTo(before, data, p0, y, x)
    requires p0 + 14 * y + x / 2 < |data|
    requires t == if x % 2 == 0 then HighNibble(data[p0 + 14 * y + x / 2]) else LowNibble(data[p0 + 14 * y + x / 2])
    requires g == if t <= 6 then SetCell(before, x, y, t) else before
    ensures NibblesUpTo(g, data, p0, y, x + 1)
  {
  }

  /** Sixteen full rows are the decoded map. */
  lemma NibblesDone(g: seq<seq<nat>>, data: seq<bv8>, p0: nat)
    requires NibblesUpTo(g, data, p0, HEIGHT, 0)
    ensures p0 + GRID_BYTES <= |data| && g == NibbleGrid(data, p0)
  {
    var r := NibbleGrid(data, p0);
    forall y | 0 <= y < HEIGHT
      ensures g[y] == r[y]
    {
    }
  }

  /** The nibble-packed body of `decode_level`: 14 bytes for each of the
      16 rows; running out of data is the decoding error (None). */
  method DecodeNibbles(rd: Reader) returns (grid: Option<seq<seq<nat>>>)
    requires rd.pos <= |rd.data|
    modifies rd
    ensures old(rd.pos) + GRID_BYTES <= |rd.data| ==> grid == Some(NibbleGrid(rd.data, old(rd.pos)))
    ensures old(rd.pos) + GRID_BYTES > |rd.data| ==> grid.None?
  {
    ghost var p0 := rd.pos;
    var g := BlankGrid();
    var y := 0;
    while y < HEIGHT
      invariant y <= HEIGHT && rd.pos == p0 + 14 * y
      invariant NibblesUpTo(g, rd.data, p0, y, 0)
    {
      var xByte := 0;
      while xByte < 14
        invariant xByte <= 14 && rd.pos == p0 + 14 * y + xByte
        invariant NibblesUpTo(g, rd.data, p0, y, 2 * xByte)
      {
        var b := rd.ReadByte();
        if b.None? {
          return None;
        }
        var tileEven := HighNibble(b.value);
        var tileOdd := LowNibble(b.value);
        var x := xByte * 2;
        ghost var before := g;
        if tileEven <= 6 {
          g := SetCell(g, x, y, tileEven);
        }
        NibbleStep(before, g, rd.data, p0, y, x, tileEven);
        before := g;
        if x + 1 < WIDTH && tileOdd <= 6 {
          g := SetCell(g, x + 1, y, tileOdd);
        }
        NibbleStep(before, g, rd.data, p0, y, x + 1, tileOdd);
        xByte := xByte + 1;
      }
      y := y + 1;
    }
    NibblesDone(g, rd.data, p0);
    return Some(g);
  }

  // ---------------------------------------------------------------------
  // Text rows and the entity overlay
  // ---------------------------------------------------------------------

  /** The text rows of a decoded map, before the overlay: one character
      per tile. */
  function BaseRows(grid: seq<seq<nat>>): (rows: seq<string>)
    requires IsGrid(grid, WIDTH, HEIGHT)
    ensures IsGrid(rows, WIDTH, HEIGHT)
  {
    seq(HEIGHT, y requires 0 <= y < HEIGHT => seq(WIDTH, x requires 0 <= x < WIDTH => TileChar(grid[y][x])))
  }

  /** The loop that turns the map into rows of characters. */
  method BuildRows(grid: seq<seq<nat>>) returns (rows: seq<string>)
    requires IsGrid(grid, WIDTH, HEIGHT)
    ensures rows == BaseRows(grid)
  {
    rows := [];
    var y := 0;
    while y < HEIGHT
      invariant y <= HEIGHT && |rows| == y
      invariant forall j :: 0 <= j < y ==> rows[j] == BaseRows(grid)[j]
    {
      var rowChars := seq(WIDTH, _ => ' ');
      var x := 0;
      while x < WIDTH
        invariant x <= WIDTH && |rowChars| == WIDTH
        invariant forall i :: 0 <= i < x ==> rowChars[i] == TileChar(grid[y][i])
      {
        rowChars := rowChars[x := TileChar(grid[y][x])];
        x := x + 1;
      }
      rows := rows + [rowChars];
      y := y + 1;
    }
  }

  /** A position inside the 28 by 16 map. */
  predicate OnMap(p: (nat, nat))
  {
    p.0 < WIDTH && p.1 < HEIGHT
  }

  /** `rows` with character `c` at `p` when `p` is on the map; positions
      off the map are ignored. */
  function PlaceAt(rows: seq<string>, p: (nat, nat), c: char): (r: seq<string>)
    requires IsGrid(rows, WIDTH, HEIGHT)
    ensures IsGrid(r, WIDTH, HEIGHT)
  {
    if OnMap(p) then SetCell(rows, p.0, p.1, c) else rows
  }

  /** The rows with an 'E' at every guard position on the map, in order. */
  function PlaceEnemies(rows: seq<string>, enemies: seq<(nat, nat)>): (r: seq<string>)
    requires IsGrid(rows, WIDTH, HEIGHT)
    ensures IsGrid(r, WIDTH, HEIGHT)
  {
    if |enemies| == 0 then rows
    else PlaceAt(PlaceEnemies(rows, enemies[..|enemies| - 1]), enemies[|enemies| - 1], 'E')
  }

  /** The exit-ladder overlay: each exit ladder on the map becomes a '~'
      when its cell is still blank, and is recorded as an overlap
      otherwise. */
  function PlaceLadders(rows: seq<string>, ladders: seq<(nat, nat)>): (r: (seq<string>, seq<(nat, nat)>))
    requires IsGrid(rows, WIDTH, HEIGHT)
    ensures IsGrid(r.0, WIDTH, HEIGHT)
  {
    if |ladders| == 0 then (rows, [])
    else
      var prev := PlaceLadders(rows, ladders[..|ladders| - 1]);
      var p := ladders[|ladders| - 1];
      if !OnMap(p) then prev
      else if prev.0[p.1][p.0] == ' ' then (SetCell(prev.0, p.0, p.1, '~'), prev.1)
      else (prev.0, prev.1 + [p])
  }

  /** The whole overlay: the player, then the guards, then the exit
      ladders. */
  function Overlay(rows: seq<string>, h: Header): (r: (seq<string>, seq<(nat, nat)>))
    requires IsGrid(rows, WIDTH, HEIGHT)
    ensures IsGrid(r.0, WIDTH, HEIGHT)
  {
    PlaceLadders(PlaceEnemies(PlaceAt(rows, h.player, 'P'), h.enemies), h.exitLadders)
  }

  lemma PrefixStep<T>(s: seq<T>, k: nat)
    requires k < |s|
    ensures s[..k + 1][..k] == s[..k] && s[..k + 1][k] == s[k]
  {
  }

  /** The overlay loops of `decode_level`. */
  method PlaceEntities(base: seq<string>, h: Header) returns (rows: seq<string>, overlaps: seq<(nat, nat)>)
    requires IsGrid(base, WIDTH, HEIGHT)
    ensures (rows, overlaps) == Overlay(base, h)
  {
    rows := base;
    if h.player.0 < WIDTH && h.player.1 < HEIGHT {
      rows := SetCell(rows, h.player.0, h.player.1, 'P');
    }
    ghost var withPlayer := rows;
    var i := 0;
    while i < |h.enemies|
      invariant i <= |h.enemies|
      invariant rows == PlaceEnemies(withPlayer, h.enemies[..i])
    {
      PrefixStep(h.enemies, i);
      var (ex, ey) := h.enemies[i];
      if ex < WIDTH && ey < HEIGHT {
        rows := SetCell(rows, ex, ey, 'E');
      }
      i := i + 1;
    }
    assert h.enemies[..i] == h.enemies;
    ghost var withEnemies := rows;
    overlaps := [];
    var j := 0;
    while j < |h.exitLadders|
      invariant j <= |h.exitLadders|
      invariant (rows, overlaps) == PlaceLadders(withEnemies, h.exitLadders[..j])
    {
      PrefixStep(h.exitLadders, j);
      var (lx, ly) := h.exitLadders[j];
      if lx < WIDTH && ly < HEIGHT {
        if rows[ly][lx] == ' ' {
          rows := SetCell(rows, lx, ly, '~');
        } else {
          overlaps := overlaps + [(lx, ly)];
        }
      }
      j := j + 1;
    }
    assert h.exitLadders[..j] == h.exitLadders;
  }

  // ---------------------------------------------------------------------
  // Decoding a level array
  // ---------------------------------------------------------------------

  /** A decoded level: its array name, its 16 text rows of 28 characters,
      the header's positions, the exit ladders that could not be drawn as
      '~' (the overlaps), the respawn points and the body encoding. */
  datatype LevelData = LevelData(name: string, rows: seq<string>, player: (nat, nat),
    enemies: seq<(nat, nat)>, exitLadders: seq<(nat, nat)>, overlaps: seq<(nat, nat)>,
    respawnPoints: seq<(nat, nat)>, encryption: nat)

  /** What `decode_level` ends with: a level, no workable format (the
      warning and `None`), or the data running out while it is read (the
      error the byte reader raises). */
  datatype DecodeResult = Decoded(level: LevelData) | NoFormat | EndOfData

  /** The map body of format `f`. */
  function BodyGrid(data: seq<bv8>, f: Format): (g: seq<seq<nat>>)
    requires f.bodyStart <= |data| && BodyFits(data, f.bodyStart, f.encryption)
    ensures IsGrid(g, WIDTH, HEIGHT)
  {
    if f.encryption == 2 then NibbleGrid(data, f.bodyStart) else RunGrid(data, f.bodyStart, f.encryption == 1)
  }

  /** `decode_level` on the array `name` holding `data`. */
  function Decode(name: string, data: seq<bv8>): (r: DecodeResult)
    ensures r.EndOfData? <==> HeaderOf(data).None?
    ensures r.NoFormat? <==> HeaderOf(data).Some? && FirstFormat(data, HeaderOf(data).value.end, TRIES).None?
  {
    match HeaderOf(data)
    case None => EndOfData
    case Some(h) =>
      match FirstFormat(data, h.end, TRIES)
      case None => NoFormat
      case Some(f) =>
        var (rows, overlaps) := Overlay(BaseRows(BodyGrid(data, f)), h);
        Decoded(LevelData(name, rows, h.player, h.enemies, h.exitLadders, overlaps, f.respawns, f.encryption))
  }

  /** `decode_level`: the header, the probe, the body and the overlay,
      reading through one byte reader. The body never runs out of data
      once the probe has accepted the format, so the only way to the
      reader's error is a short header. */
  method DecodeLevel(name: string, data: seq<bv8>) returns (r: DecodeResult)
    ensures r == Decode(name, data)
  {
    var rd := new Reader(data);
    var h := ReadHeader(rd);
    if h.None? {
      return EndOfData;
    }
    var fmt := ProbeFormat(rd);
    if fmt.None? {
      return NoFormat;
    }
    var enc := fmt.value.encryption;
    var grid;
    if enc == 2 {
      var g := DecodeNibbles(rd);
      grid := g.value;
    } else {
      grid := DecodeRuns(rd, enc == 1);
    }
    var base := BuildRows(grid);
    var rows, overlaps := PlaceEntities(base, h.value);
    return Decoded(LevelData(name, rows, h.value.player, h.value.enemies, h.value.exitLadders, overlaps,
      fmt.value.respawns, enc));
  }

  // ---------------------------------------------------------------------
  // What the overlay draws
  // ---------------------------------------------------------------------

  /** The character a cell ends with, given its tile and what stands on it:
      a guard hides the player, either hides the tile, and an exit ladder
      is drawn only on a cell that would otherwise be blank. */
  function ShownChar(tile: nat, isPlayer: bool, isEnemy: bool, isLadder: bool): (c: char)
    ensures c in " #=H-T$PE~"
    ensures c == '~' <==> isLadder && !isPlayer && !isEnemy && TileChar(tile) == ' '
  {
    var c := if isEnemy then 'E' else if isPlayer then 'P' else TileChar(tile);
    if c == ' ' && isLadder then '~' else c
  }

  /** Every guard on the map is drawn over `base`, and nothing else
      changes. */
  ghost predicate EnemiesDrawn(base: seq<string>, enemies: seq<(nat, nat)>, r: seq<string>)
    requires IsGrid(base, WIDTH, HEIGHT)
  {
    IsGrid(r, WIDTH, HEIGHT)
    && forall y: nat, x: nat :: y < HEIGHT && x < WIDTH ==>
      r[y][x] == if (x, y) in enemies then 'E' else base[y][x]
  }

  lemma {:induction false} PlaceEnemiesDraws(base: seq<string>, enemies: seq<(nat, nat)>)
    requires IsGrid(base, WIDTH, HEIGHT)
    ensures EnemiesDrawn(base, enemies, PlaceEnemies(base, enemies))
    decreases |enemies|
  {
    if |enemies| > 0 {
      var n := |enemies| - 1;
      PlaceEnemiesDraws(base, enemies[..n]);
      SplitLast(enemies);
      forall y: nat, x: nat | y < HEIGHT && x < WIDTH
        ensures (x, y) in enemies <==> (x, y) in enemies[..n] || (x, y) == enemies[n]
      {
        assert (x, y) in enemies <==> (x, y) in enemies[..n] + [enemies[n]];
      }
    }
  }

  lemma SplitLast<T>(s: seq<T>)
    requires |s| > 0
    ensures s[..|s| - 1] + [s[|s| - 1]] == s
  {
  }

  /** Every exit ladder on a blank cell of `base` is drawn as '~', every
      other cell keeps its character, every exit ladder on a cell that is
      not blank is an overlap, and every overlap is an exit ladder on the
      map. */
  ghost predicate LaddersDrawn(base: seq<string>, ladders: seq<(nat, nat)>, r: (seq<string>, seq<(nat, nat)>))
    requires IsGrid(base, WIDTH, HEIGHT)
  {
    IsGrid(r.0, WIDTH, HEIGHT)
    && (forall y: nat, x: nat :: y < HEIGHT && x < WIDTH ==>
      r.0[y][x] == if base[y][x] == ' ' && (x, y) in ladders then '~' else base[y][x])
    && (forall i :: 0 <= i < |ladders| && OnMap(ladders[i]) && base[ladders[i].1][ladders[i].0] != ' ' ==> ladders[i] in r.1)
    && (forall i :: 0 <= i < |r.1| ==> r.1[i] in ladders && OnMap(r.1[i]))
  }

  lemma {:induction false} PlaceLaddersDraws(base: seq<string>, ladders: seq<(nat, nat)>)
    requires IsGrid(base, WIDTH, HEIGHT)
    ensures LaddersDrawn(base, ladders, PlaceLadders(base, ladders))
    decreases |ladders|
  {
    if |ladders| > 0 {
      var n := |ladders| - 1;
      var prefix := ladders[..n];
      PlaceLaddersDraws(base, prefix);
      SplitLast(ladders);
      forall y: nat, x: nat | y < HEIGHT && x < WIDTH
        ensures (x, y) in ladders <==> (x, y) in prefix || (x, y) == ladders[n]
      {
        assert (x, y) in ladders <==> (x, y) in prefix + [ladders[n]];
      }
      forall i | 0 <= i < |ladders| && OnMap(ladders[i]) && base[ladders[i].1][ladders[i].0] != ' '
        ensures ladders[i] in PlaceLadders(base, ladders).1
      {
        if i < n {
          assert ladders[i] == prefix[i];
        }
      }
      forall i | 0 <= i < |PlaceLadders(base, prefix).1|
        ensures PlaceLadders(base, prefix).1[i] in ladders
      {
        assert PlaceLadders(base, prefix).1[i] in prefix;
      }
    }
  }

  /** The overlaps as a filter of the exit-ladder list: in order, each exit
      ladder on the map whose cell is not blank in `base`, or already holds
      an earlier exit ladder. */
  function LadderOverlaps(base: seq<string>, ladders: seq<(nat, nat)>): (r: seq<(nat, nat)>)
    requires IsGrid(base, WIDTH, HEIGHT)
    ensures |r| <= |ladders|
    decreases |ladders|
  {
    if |ladders| == 0 then []
    else
      var n := |ladders| - 1;
      var p := ladders[n];
      LadderOverlaps(base, ladders[..n])
      + (if OnMap(p) && (base[p.1][p.0] != ' ' || p in ladders[..n]) then [p] else [])
  }

  /** The overlaps `PlaceLadders` records are exactly that filter of the
      exit ladders, in their order, duplicates included. */
  lemma {:induction false} OverlapsAreFiltered(base: seq<string>, ladders: seq<(nat, nat)>)
    requires IsGrid(base, WIDTH, HEIGHT)
    ensures PlaceLadders(base, ladders).1 == LadderOverlaps(base, ladders)
    decreases |ladders|
  {
    if |ladders| > 0 {
      var n := |ladders| - 1;
      OverlapsAreFiltered(base, ladders[..n]);
      PlaceLaddersDraws(base, ladders[..n]);
    }
  }

  /** The overlay, cell by cell: each cell of the map shows `ShownChar` of
      its tile and of what the header puts there; every exit ladder on the
      map that is not drawn is an overlap, and every overlap is an exit
      ladder on the map. */
  lemma OverlayCells(grid: seq<seq<nat>>, h: Header)
    requires IsGrid(grid, WIDTH, HEIGHT)
    ensures var (rows, overlaps) := Overlay(BaseRows(grid), h);
      IsGrid(rows, WIDTH, HEIGHT)
      && (forall y: nat, x: nat :: y < HEIGHT && x < WIDTH ==>
        rows[y][x] == ShownChar(grid[y][x], (x, y) == h.player, (x, y) in h.enemies, (x, y) in h.exitLadders))
      && (forall i :: 0 <= i < |h.exitLadders| && OnMap(h.exitLadders[i]) && rows[h.exitLadders[i].1][h.exitLadders[i].0] != '~' ==>
            h.exitLadders[i] in overlaps)
      && (forall i :: 0 <= i < |overlaps| ==> overlaps[i] in h.exitLadders && OnMap(overlaps[i]))
  {
    var base := BaseRows(grid);
    var withPlayer := PlaceAt(base, h.player, 'P');
    var withEnemies := PlaceEnemies(withPlayer, h.enemies);
    PlaceEnemiesDraws(withPlayer, h.enemies);
    PlaceLaddersDraws(withEnemies, h.exitLadders);
  }

  /** A decoded level keeps the array's name and header, and its rows are
      the 16 rows of 28 characters that the body and the overlay give,
      cell by cell; its overlaps are exit ladders on the map, and every
      exit ladder on the map is drawn as '~' or is an overlap. */
  lemma DecodedLevel(name: string, data: seq<bv8>)
    requires Decode(name, data).Decoded?
    ensures var d := Decode(name, data).level;
      var h := HeaderOf(data).value;
      var f := FirstFormat(data, h.end, TRIES).value;
      var g := BodyGrid(data, f);
      d.name == name && d.player == h.player && d.enemies == h.enemies && d.exitLadders == h.exitLadders
      && d.respawnPoints == f.respawns && d.encryption == f.encryption <= 2
      && IsGrid(d.rows, WIDTH, HEIGHT)
      && (forall y: nat, x: nat :: y < HEIGHT && x < WIDTH ==>
        d.rows[y][x] == ShownChar(g[y][x], (x, y) == h.player, (x, y) in h.enemies, (x, y) in h.exitLadders))
      && (forall i :: 0 <= i < |d.exitLadders| && OnMap(d.exitLadders[i]) && d.rows[d.exitLadders[i].1][d.exitLadders[i].0] != '~' ==>
            d.exitLadders[i] in d.overlaps)
      && (forall i :: 0 <= i < |d.overlaps| ==> d.overlaps[i] in d.exitLadders && OnMap(d.overlaps[i]))
  {
    var h := HeaderOf(data).value;
    var f := FirstFormat(data, h.end, TRIES).value;
    OverlayCells(BodyGrid(data, f), h);
  }

  /** Every character of a decoded level's rows is one of the level text
      legend's: a tile, 'P', 'E' or '~'. */
  lemma DecodedRowsLegend(name: string, data: seq<bv8>)
    requires Decode(name, data).Decoded?
    ensures var rows := Decode(name, data).level.rows;
      |rows| == HEIGHT && forall y :: 0 <= y < HEIGHT ==> |rows[y]| == WIDTH && forall x :: 0 <= x < WIDTH ==> rows[y][x] in " #=H-T$PE~"
  {
    DecodedLevel(name, data);
    var rows := Decode(name, data).level.rows;
    forall y, x | 0 <= y < HEIGHT && 0 <= x < WIDTH
      ensures rows[y][x] in " #=H-T$PE~"
    {
      var yn: nat, xn: nat := y, x;
      assert rows[yn][xn] in " #=H-T$PE~";
    }
  }

  /** A zero run ends a run-length body: the bytes after it do not change
      any cell. */
  lemma {:induction false} RunCellStopsAtZero(data: seq<bv8>, tail: seq<bv8>, q: nat, p: nat, cursor: nat, t: nat)
    requires p <= q < |data| && RunLength(data[q]) == 0 && cursor <= t < CELLS
    ensures RunCell(data[..q + 1] + tail, p, cursor, t) == RunCell(data, p, cursor, t)
    decreases q - p
  {
    var cut := data[..q + 1] + tail;
    assert cut[p] == data[p];
    if p < q && RunLength(data[p]) > 0 && t >= cursor + RunLength(data[p]) {
      RunCellStopsAtZero(data, tail, q, p + 1, cursor + RunLength(data[p]), t);
    }
  }

  /** The map a run-length body decodes to is fixed by the bytes up to its
      first zero run. */
  lemma RunGridStopsAtZero(data: seq<bv8>, tail: seq<bv8>, q: nat, p: nat, column: bool)
    requires p <= q < |data| && RunLength(data[q]) == 0
    ensures RunGrid(data[..q + 1] + tail, p, column) == RunGrid(data, p, column)
  {
    var a := RunGrid(data[..q + 1] + tail, p, column);
    var b := RunGrid(data, p, column);
    forall y | 0 <= y < HEIGHT
      ensures a[y] == b[y]
    {
      forall x | 0 <= x < WIDTH
        ensures a[y][x] == b[y][x]
      {
        CellCursorOnMap(column, x, y);
        RunCellStopsAtZero(data, tail, q, p, 0, CursorOf(column, x, y));
      }
    }
  }
}
