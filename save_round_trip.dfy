/** What `parse_save` makes of the text `serialize` writes: the level,
    score and lives always come back, and so does a snapshot whose numbers
    fit their fields and which has at least one tile row. Tile rows come
    back whole only because `Save.Absorb` reads them untrimmed;
    `SavedRowLosesTrailingEmpty` shows what the parser as written does to
    a row that ends in Empty tiles. */
module SaveRoundTrip {
  import opened Common
  import opened Tiles
  import opened Entity
  import opened Text
  import opened Save
  import opened World
  import Timers

  // ---------------------------------------------------------------------
  // Fields that fit
  // ---------------------------------------------------------------------

  predicate PlayerFits(p: SnapshotPlayer)
  {
    p.x <= USIZE_MAX && p.y <= USIZE_MAX && p.moveCooldown <= U32_MAX
  }

  predicate GuardFits(g: Guard)
  {
    g.id <= USIZE_MAX && g.x <= USIZE_MAX && g.y <= USIZE_MAX && g.carryGoldTimer <= U32_MAX
    && g.stuckTimer <= U32_MAX && g.moveCooldown <= U32_MAX && g.spawnX <= USIZE_MAX
    && g.spawnY <= USIZE_MAX && g.respawnTimer <= U32_MAX && g.separationTimer <= U32_MAX
  }

  predicate HoleFits(h: Hole)
  {
    h.x <= USIZE_MAX && h.y <= USIZE_MAX && h.openRemaining <= U32_MAX && h.closeRemaining <= U32_MAX
  }

  predicate DigFits(d: DigInProgress)
  {
    d.x <= USIZE_MAX && d.y <= USIZE_MAX && d.ticksRemaining <= U32_MAX && d.totalTicks <= U32_MAX
  }

  predicate PairFits(p: (nat, nat))
  {
    p.0 <= USIZE_MAX && p.1 <= USIZE_MAX
  }

  /** Every number of the snapshot fits the Rust type it is stored in
      (`u64` tick, `usize` sizes and positions, `u32` timers), and there is
      at least one tile row. */
  predicate SnapshotFits(s: Snapshot)
  {
    s.tick <= U64_MAX && s.width <= USIZE_MAX && s.height <= USIZE_MAX
    && s.goldRemaining <= USIZE_MAX && s.goldTotal <= USIZE_MAX
    && PairFits(s.playerSpawn) && PlayerFits(s.player)
    && (forall i :: 0 <= i < |s.guards| ==> GuardFits(s.guards[i]))
    && (forall i :: 0 <= i < |s.holes| ==> HoleFits(s.holes[i]))
    && (forall i :: 0 <= i < |s.digs| ==> DigFits(s.digs[i]))
    && (forall i :: 0 <= i < |s.exitColumns| ==> s.exitColumns[i] <= USIZE_MAX)
    && (forall i :: 0 <= i < |s.hiddenLadderPositions| ==> PairFits(s.hiddenLadderPositions[i]))
    && |s.tiles| > 0
  }

  // ---------------------------------------------------------------------
  // Words and plain lines
  // ---------------------------------------------------------------------

  /** A field as `serialize` writes it: non-empty, no whitespace, no comma
      and no line break. */
  predicate Word(s: string)
  {
    |s| > 0 && forall i :: 0 <= i < |s| ==> !IsSpace(s[i]) && s[i] != ','
  }

  predicate AllWords(parts: seq<string>)
  {
    forall i :: 0 <= i < |parts| ==> Word(parts[i])
  }

  /** Text `trim_end` leaves alone and that stays one line. */
  predicate Solid(s: string)
  {
    |s| > 0 && !IsSpace(s[|s| - 1]) && '\n' !in s && '\r' !in s
  }

  lemma NumIsWord(n: nat)
    ensures Word(Num(n))
  {
    ShowNatIsPlain(n);
  }

  lemma NumReadsBack(n: nat, max: nat)
    requires n <= max
    ensures ParseUint(Trim(Num(n)), max) == Some(n)
  {
    ShowNatIsPlain(n);
    TrimUnchanged(Num(n));
    ParseShowNat(n, max);
  }

  /** A word is its own trim. */
  lemma WordIsTrimmed(s: string)
    requires Word(s)
    ensures Trim(s) == s
  {
    TrimUnchanged(s);
  }

  /** Words joined with commas are solid text, and splitting at the commas
      gives the words back. */
  lemma {:induction false} JoinOfWords(parts: seq<string>)
    requires |parts| >= 1 && AllWords(parts)
    ensures Solid(Join(parts, ','))
    ensures Split(Join(parts, ','), ',') == parts
    decreases |parts|
  {
    assert forall i :: 0 <= i < |parts| ==> ',' !in parts[i] by {
      forall i | 0 <= i < |parts| ensures ',' !in parts[i] {
        assert Word(parts[i]);
      }
    }
    SplitJoin(parts, ',');
    var w := parts[0];
    assert Word(w);
    assert '\n' !in w && '\r' !in w by {
      forall k | 0 <= k < |w| ensures w[k] != '\n' && w[k] != '\r' {
        assert !IsSpace(w[k]);
      }
    }
    if |parts| > 1 {
      JoinOfWords(parts[1..]);
      assert AllWords(parts[1..]);
      var rest := Join(parts[1..], ',');
      assert Join(parts, ',') == w + [','] + rest;
    }
  }

  /** `key` followed by solid text is a solid line. */
  lemma KeyedIsSolid(key: string, val: string)
    requires |key| > 0 && '\n' !in key && '\r' !in key && Solid(val)
    ensures Solid(key + val) && PlainLine(key + val)
  {
    var l := key + val;
    assert l[|l| - 1] == val[|val| - 1];
    forall k | 0 <= k < |l| ensures l[k] != '\n' && l[k] != '\r' {
      if k < |key| { assert l[k] == key[k]; } else { assert l[k] == val[k - |key|]; }
    }
  }

  // ---------------------------------------------------------------------
  // Reading the lines back one at a time
  // ---------------------------------------------------------------------

  lemma {:induction false} AbsorbAllAppend(acc: Acc, a: seq<string>, b: seq<string>)
    ensures AbsorbAll(acc, a + b) == AbsorbAll(AbsorbAll(acc, a), b)
    decreases |a|
  {
    if |a| > 0 {
      assert (a + b)[0] == a[0] && (a + b)[1..] == a[1..] + b;
      AbsorbAllAppend(Absorb(acc, a[0]), a[1..], b);
    } else {
      assert a + b == b;
    }
  }

  lemma AbsorbAllOne(acc: Acc, l: string)
    ensures AbsorbAll(acc, [l]) == Absorb(acc, l)
  {
    assert [l][1..] == [];
  }

  /** A solid line that is not a tile row is read through `Classify`
      unchanged by the trim. */
  lemma AbsorbSolid(acc: Acc, line: string)
    requires Solid(line) && !("tile_row=" <= line)
    ensures Absorb(acc, line) == AbsorbEntry(acc, Classify(line))
  {
  }

  // ---------------------------------------------------------------------
  // The header
  // ---------------------------------------------------------------------

  /** The three header lines. */
  function HeaderLines(level: nat, score: nat, lives: nat): seq<string>
  {
    ["level=" + Num(level), "score=" + Num(score), "lives=" + Num(lives)]
  }

  lemma HeaderLinesArePlain(level: nat, score: nat, lives: nat)
    ensures forall i :: 0 <= i < 3 ==> PlainLine(HeaderLines(level, score, lives)[i])
    ensures forall i :: 0 <= i < 3 ==> Solid(HeaderLines(level, score, lives)[i])
  {
    NumIsWord(level); NumIsWord(score); NumIsWord(lives);
    JoinOfWords([Num(level)]); JoinOfWords([Num(score)]); JoinOfWords([Num(lives)]);
    KeyedIsSolid("level=", Num(level));
    KeyedIsSolid("score=", Num(score));
    KeyedIsSolid("lives=", Num(lives));
  }

  lemma AbsorbLevel(acc: Acc, level: nat)
    requires level <= USIZE_MAX
    ensures Absorb(acc, "level=" + Num(level)) == acc.(level := Some(level))
  {
    var l := "level=" + Num(level);
    HeaderLinesArePlain(level, 0, 0);
    assert l[0] != "tile_row="[0];
    AbsorbSolid(acc, l);
    assert l[6..] == Num(level);
    ClassifiedLevelEntry(l);
    NumReadsBack(level, USIZE_MAX);
  }

  lemma AbsorbScore(acc: Acc, score: nat)
    requires score <= U32_MAX
    ensures Absorb(acc, "score=" + Num(score)) == acc.(score := Some(score))
  {
    var l := "score=" + Num(score);
    HeaderLinesArePlain(0, score, 0);
    assert l[0] != "tile_row="[0];
    AbsorbSolid(acc, l);
    assert l[6..] == Num(score);
    ClassifiedScoreEntry(l);
    NumReadsBack(score, U32_MAX);
  }

  lemma AbsorbLives(acc: Acc, lives: nat)
    requires lives <= U32_MAX
    ensures Absorb(acc, "lives=" + Num(lives)) == acc.(lives := Some(lives))
  {
    var l := "lives=" + Num(lives);
    HeaderLinesArePlain(0, 0, lives);
    assert l[0] != "tile_row="[0];
    AbsorbSolid(acc, l);
    assert l[6..] == Num(lives);
    ClassifiedLivesEntry(l);
    NumReadsBack(lives, U32_MAX);
  }

  lemma Fold3<A>(step: (A, string) -> A, acc: A, x: string, y: string, z: string)
    ensures FoldLines(step, acc, [x, y, z]) == step(step(step(acc, x), y), z)
  {
    var a1 := step(acc, x);
    var a2 := step(a1, y);
    assert [z][1..] == [];
    assert FoldLines(step, a2, [z]) == FoldLines(step, step(a2, z), []);
    assert [y, z][1..] == [z];
    assert FoldLines(step, a1, [y, z]) == FoldLines(step, a2, [z]);
    assert [x, y, z][1..] == [y, z];
  }

  lemma AbsorbHeader(acc: Acc, level: nat, score: nat, lives: nat)
    requires level <= USIZE_MAX && score <= U32_MAX && lives <= U32_MAX
    ensures AbsorbAll(acc, HeaderLines(level, score, lives))
         == acc.(level := Some(level), score := Some(score), lives := Some(lives))
  {
    var ls := HeaderLines(level, score, lives);
    assert ls == [ls[0], ls[1], ls[2]];
    assert ls[0] == "level=" + Num(level) && ls[1] == "score=" + Num(score) && ls[2] == "lives=" + Num(lives);
    AbsorbAllIsFold(acc, ls);
    Fold3(Absorb, acc, ls[0], ls[1], ls[2]);
    AbsorbLevel(acc, level);
    var a1 := acc.(level := Some(level));
    AbsorbScore(a1, score);
    var a2 := a1.(score := Some(score));
    AbsorbLives(a2, lives);
  }

  // ---------------------------------------------------------------------
  // Field values
  // ---------------------------------------------------------------------

  lemma NumIsSolid(n: nat)
    ensures Word(Num(n)) && Solid(Num(n))
  {
    ShowNatIsPlain(n);
  }

  lemma FlagReadsBack(b: bool)
    ensures Word(Flag(b)) && (Trim(Flag(b)) == "1" <==> b)
  {
  }

  /** Two numbers written as `a,b` split back into the two numbers. */
  lemma PairReadsBack(a: nat, b: nat)
    ensures Solid(Num(a) + "," + Num(b))
    ensures Split(Num(a) + "," + Num(b), ',') == [Num(a), Num(b)]
  {
    NumIsSolid(a);
    NumIsSolid(b);
    var parts := [Num(a), Num(b)];
    assert parts[1..] == [Num(b)];
    assert Join(parts, ',') == Num(a) + "," + Num(b);
    JoinOfWords(parts);
  }

  lemma UsizeOfNum(n: nat)
    requires n <= USIZE_MAX
    ensures Usize(Num(n)) == Some(n)
  {
    NumReadsBack(n, USIZE_MAX);
  }

  lemma U32OfNum(n: nat)
    requires n <= U32_MAX
    ensures U32(Num(n)) == Some(n)
  {
    NumReadsBack(n, U32_MAX);
  }

  // Each record's fields, one lemma per step: the fields are words, so
  // their comma-joined text is solid and splits back into them
  // (`PlayerFieldsJoined`); a text that splits into the fields parses as
  // the record (`ParsePlayerOfFields`).

  lemma PlayerFieldsAreWords(p: SnapshotPlayer)
    ensures |PlayerFields(p)| == 5 && AllWords(PlayerFields(p))
  {
    NumIsSolid(p.x); NumIsSolid(p.y); NumIsSolid(p.moveCooldown);
  }

  lemma PlayerFieldsSolid(p: SnapshotPlayer)
    ensures Solid(Join(PlayerFields(p), ','))
  {
    PlayerFieldsAreWords(p);
    JoinOfWords(PlayerFields(p));
  }

  lemma PlayerFieldsJoined(p: SnapshotPlayer)
    ensures Solid(Join(PlayerFields(p), ','))
    ensures Split(Join(PlayerFields(p), ','), ',') == PlayerFields(p)
  {
    PlayerFieldsAreWords(p);
    JoinOfWords(PlayerFields(p));
  }

  lemma PlayerFieldsAt(pl: SnapshotPlayer, p: seq<string>)
    requires p == PlayerFields(pl)
    ensures |p| == 5 && p[0] == Num(pl.x) && p[1] == Num(pl.y) && p[4] == Num(pl.moveCooldown)
    ensures p[2] == FacingStr(pl.facing) && p[3] == StateStr(pl.state)
  {
  }

  /** The three numeric player fields read back as `parse_player` reads them. */
  lemma PlayerNumsReadBack(pl: SnapshotPlayer, p: seq<string>)
    requires PlayerFits(pl) && |p| == 5
    requires p[0] == Num(pl.x) && p[1] == Num(pl.y) && p[4] == Num(pl.moveCooldown)
    ensures Usize(p[0]) == Some(pl.x) && Usize(p[1]) == Some(pl.y) && U32(p[4]) == Some(pl.moveCooldown)
  {
    UsizeOfNum(pl.x); UsizeOfNum(pl.y); U32OfNum(pl.moveCooldown);
  }

  /** Facing, state and a flag read back as the record parsers read them. */
  lemma WordsReadBack(f: Facing, st: ActorState, b: bool)
    ensures ParseFacing(Trim(FacingStr(f))) == f && ParseState(Trim(StateStr(st))) == st
      && (Trim(Flag(b)) == "1") == b
  {
    WordIsTrimmed(FacingStr(f));
    WordIsTrimmed(StateStr(st));
    FlagReadsBack(b);
    ParseFacingInvertsFacingStr(f);
    ParseStateInvertsStateStr(st);
  }

  lemma ParsePlayerOfFields(v: string, p: SnapshotPlayer)
    requires PlayerFits(p) && Split(v, ',') == PlayerFields(p)
    ensures ParsePlayer(v) == Some(p)
  {
    var parts := Split(v, ',');
    PlayerFieldsAt(p, parts);
    PlayerNumsReadBack(p, parts);
    WordsReadBack(p.facing, p.state, false);
  }

  lemma PlayerFieldsReadBack(p: SnapshotPlayer)
    requires PlayerFits(p)
    ensures Solid(Join(PlayerFields(p), ','))
    ensures ParsePlayer(Join(PlayerFields(p), ',')) == Some(p)
  {
    PlayerFieldsJoined(p);
    ParsePlayerOfFields(Join(PlayerFields(p), ','), p);
  }

  lemma GuardFieldsAreWords(g: Guard)
    ensures |GuardFields(g)| == 13 && AllWords(GuardFields(g))
  {
    NumIsSolid(g.id); NumIsSolid(g.x); NumIsSolid(g.y); NumIsSolid(g.carryGoldTimer);
    NumIsSolid(g.stuckTimer); NumIsSolid(g.moveCooldown); NumIsSolid(g.spawnX); NumIsSolid(g.spawnY);
    NumIsSolid(g.respawnTimer); NumIsSolid(g.separationTimer);
    FlagReadsBack(g.carryGold);
  }

  lemma GuardFieldsSolid(g: Guard)
    ensures Solid(Join(GuardFields(g), ','))
  {
    GuardFieldsAreWords(g);
    JoinOfWords(GuardFields(g));
  }

  lemma GuardFieldsJoined(g: Guard)
    ensures Solid(Join(GuardFields(g), ','))
    ensures Split(Join(GuardFields(g), ','), ',') == GuardFields(g)
  {
    GuardFieldsAreWords(g);
    JoinOfWords(GuardFields(g));
  }

  lemma GuardFieldsAt(g: Guard, p: seq<string>)
    requires p == GuardFields(g)
    ensures |p| == 13
    ensures p[0] == Num(g.id) && p[1] == Num(g.x) && p[2] == Num(g.y) && p[6] == Num(g.carryGoldTimer)
      && p[7] == Num(g.stuckTimer) && p[8] == Num(g.moveCooldown) && p[9] == Num(g.spawnX)
      && p[10] == Num(g.spawnY) && p[11] == Num(g.respawnTimer) && p[12] == Num(g.separationTimer)
    ensures p[3] == FacingStr(g.facing) && p[4] == StateStr(g.state) && p[5] == Flag(g.carryGold)
  {
  }

  /** The ten numeric guard fields read back as `parse_guard` reads them. */
  lemma GuardNumsReadBack(g: Guard, p: seq<string>)
    requires GuardFits(g) && |p| == 13
    requires p[0] == Num(g.id) && p[1] == Num(g.x) && p[2] == Num(g.y) && p[6] == Num(g.carryGoldTimer)
      && p[7] == Num(g.stuckTimer) && p[8] == Num(g.moveCooldown) && p[9] == Num(g.spawnX)
      && p[10] == Num(g.spawnY) && p[11] == Num(g.respawnTimer) && p[12] == Num(g.separationTimer)
    ensures Usize(p[0]) == Some(g.id) && Usize(p[1]) == Some(g.x) && Usize(p[2]) == Some(g.y)
      && U32(p[6]) == Some(g.carryGoldTimer) && U32(p[7]) == Some(g.stuckTimer)
      && U32(p[8]) == Some(g.moveCooldown) && Usize(p[9]) == Some(g.spawnX)
      && Usize(p[10]) == Some(g.spawnY) && U32(p[11]) == Some(g.respawnTimer)
      && U32(p[12]) == Some(g.separationTimer)
  {
    UsizeOfNum(g.id); UsizeOfNum(g.x); UsizeOfNum(g.y);
    U32OfNum(g.carryGoldTimer); U32OfNum(g.stuckTimer); U32OfNum(g.moveCooldown);
    UsizeOfNum(g.spawnX); UsizeOfNum(g.spawnY); U32OfNum(g.respawnTimer); U32OfNum(g.separationTimer);
  }

  lemma ParseGuardOfFields(v: string, g: Guard)
    requires GuardFits(g) && Split(v, ',') == GuardFields(g)
    ensures ParseGuard(v) == Some(g)
  {
    var parts := Split(v, ',');
    GuardFieldsAt(g, parts);
    GuardNumsReadBack(g, parts);
    WordsReadBack(g.facing, g.state, g.carryGold);
  }

  lemma GuardFieldsReadBack(g: Guard)
    requires GuardFits(g)
    ensures Solid(Join(GuardFields(g), ','))
    ensures ParseGuard(Join(GuardFields(g), ',')) == Some(g)
  {
    GuardFieldsJoined(g);
    ParseGuardOfFields(Join(GuardFields(g), ','), g);
  }

  lemma HoleFieldsAreWords(h: Hole)
    ensures |HoleFields(h)| == 4 && AllWords(HoleFields(h))
  {
    NumIsSolid(h.x); NumIsSolid(h.y); NumIsSolid(h.openRemaining); NumIsSolid(h.closeRemaining);
  }

  lemma HoleFieldsSolid(h: Hole)
    ensures Solid(Join(HoleFields(h), ','))
  {
    HoleFieldsAreWords(h);
    JoinOfWords(HoleFields(h));
  }

  lemma HoleFieldsJoined(h: Hole)
    ensures Solid(Join(HoleFields(h), ','))
    ensures Split(Join(HoleFields(h), ','), ',') == HoleFields(h)
  {
    HoleFieldsAreWords(h);
    JoinOfWords(HoleFields(h));
  }

  lemma ParseHoleOfFields(v: string, h: Hole)
    requires HoleFits(h) && Split(v, ',') == HoleFields(h)
    ensures ParseHole(v) == Some(h)
  {
    var parts := Split(v, ',');
    assert |parts| == 4 && parts[0] == Num(h.x) && parts[1] == Num(h.y)
      && parts[2] == Num(h.openRemaining) && parts[3] == Num(h.closeRemaining);
    UsizeOfNum(h.x); UsizeOfNum(h.y); U32OfNum(h.openRemaining); U32OfNum(h.closeRemaining);
  }

  lemma HoleFieldsReadBack(h: Hole)
    requires HoleFits(h)
    ensures Solid(Join(HoleFields(h), ','))
    ensures ParseHole(Join(HoleFields(h), ',')) == Some(h)
  {
    HoleFieldsJoined(h);
    ParseHoleOfFields(Join(HoleFields(h), ','), h);
  }

  lemma DigFieldsAreWords(d: DigInProgress)
    ensures |DigFields(d)| == 4 && AllWords(DigFields(d))
  {
    NumIsSolid(d.x); NumIsSolid(d.y); NumIsSolid(d.ticksRemaining); NumIsSolid(d.totalTicks);
  }

  lemma DigFieldsSolid(d: DigInProgress)
    ensures Solid(Join(DigFields(d), ','))
  {
    DigFieldsAreWords(d);
    JoinOfWords(DigFields(d));
  }

  lemma DigFieldsJoined(d: DigInProgress)
    ensures Solid(Join(DigFields(d), ','))
    ensures Split(Join(DigFields(d), ','), ',') == DigFields(d)
  {
    DigFieldsAreWords(d);
    JoinOfWords(DigFields(d));
  }

  lemma ParseDigOfFields(v: string, d: DigInProgress)
    requires DigFits(d) && Split(v, ',') == DigFields(d)
    ensures ParseDig(v) == Some(d)
  {
    var parts := Split(v, ',');
    assert |parts| == 4 && parts[0] == Num(d.x) && parts[1] == Num(d.y)
      && parts[2] == Num(d.ticksRemaining) && parts[3] == Num(d.totalTicks);
    UsizeOfNum(d.x); UsizeOfNum(d.y); U32OfNum(d.ticksRemaining); U32OfNum(d.totalTicks);
  }

  lemma DigFieldsReadBack(d: DigInProgress)
    requires DigFits(d)
    ensures Solid(Join(DigFields(d), ','))
    ensures ParseDig(Join(DigFields(d), ',')) == Some(d)
  {
    DigFieldsJoined(d);
    ParseDigOfFields(Join(DigFields(d), ','), d);
  }

  lemma ColumnsAreWords(cols: seq<nat>)
    ensures AllWords(Columns(cols))
  {
    var parts := Columns(cols);
    forall i | 0 <= i < |parts| ensures Word(parts[i]) {
      NumIsSolid(cols[i]);
    }
  }

  lemma ColumnsJoined(cols: seq<nat>)
    requires |cols| > 0
    ensures Solid(Join(Columns(cols), ','))
    ensures Split(Join(Columns(cols), ','), ',') == Columns(cols)
  {
    ColumnsAreWords(cols);
    JoinOfWords(Columns(cols));
  }

  /** Fields that each read as a number give those numbers. */
  lemma {:induction false} ParsedColumnsOfFields(parts: seq<string>, cols: seq<nat>)
    requires |parts| == |cols| && forall i :: 0 <= i < |parts| ==> Usize(parts[i]) == Some(cols[i])
    ensures ParsedColumns(parts) == cols
    decreases |parts|
  {
    if |parts| > 0 {
      assert Usize(parts[0]) == Some(cols[0]);
      ParsedColumnsOfFields(parts[1..], cols[1..]);
      assert cols == [cols[0]] + cols[1..];
    }
  }

  lemma ParsedColumnsOfNums(cols: seq<nat>)
    requires forall i :: 0 <= i < |cols| ==> cols[i] <= USIZE_MAX
    ensures ParsedColumns(Columns(cols)) == cols
  {
    var parts := Columns(cols);
    forall i | 0 <= i < |parts| ensures Usize(parts[i]) == Some(cols[i]) {
      UsizeOfNum(cols[i]);
    }
    ParsedColumnsOfFields(parts, cols);
  }

  lemma RowTextReadsBack(row: seq<Tile>)
    ensures RowOf(RowText(row)) == row
  {
    forall i | 0 <= i < |row| ensures RowOf(RowText(row))[i] == row[i] {
      CharToTileInvertsTileToChar(row[i]);
    }
  }

  // ---------------------------------------------------------------------
  // Snapshot head lines
  // ---------------------------------------------------------------------

  lemma AbsorbAll3(acc: Acc, x: string, y: string, z: string)
    ensures AbsorbAll(acc, [x, y, z]) == Absorb(Absorb(Absorb(acc, x), y), z)
  {
    assert [x, y, z][1..] == [y, z];
    assert [y, z][1..] == [z];
    AbsorbAllOne(Absorb(Absorb(acc, x), y), z);
  }

  /** The snapshot flag line is recognised as the flag (the line is a
      parameter so that its text is not unfolded more than needed). */
  lemma ClassifiedFlag(l: string)
    requires l == "has_snapshot=1"
    ensures Classify(l) == SnapshotFlagEntry
  {
    var key := "has_snapshot=";
    TrimUnchanged(l);
    assert key !in {"level=", "score=", "lives="};
    assert IsKey(key) && key <= l;
    KeyOfIsPrefix(l, key);
  }

  lemma AbsorbFlag(acc: Acc, l: string)
    requires l == "has_snapshot=1"
    ensures Absorb(acc, l) == acc.(hasSnapshot := true)
  {
    assert Solid(l);
    assert !("tile_row=" <= l) by { assert l[0] != "tile_row="[0]; }
    ClassifiedFlag(l);
    AbsorbSolid(acc, l);
  }

  /** A key of the snapshot part of the format. */
  predicate SnapshotKey(key: string)
  {
    IsKey(key) && !IsSpace(key[0]) && (key[0] != 'h' || (|key| > 1 && key[1] != 'a'))
    && key !in {"level=", "score=", "lives="} && key != "tile_row=" && '\n' !in key && '\r' !in key
  }

  // The snapshot keys, one lemma each: the key is a snapshot key and
  // names its entry.

  lemma TickKey(v: string)
    ensures SnapshotKey("tick=") && SnapshotEntry("tick=", v) == TickEntry(v)
  {
  }

  lemma WidthKey(v: string)
    ensures SnapshotKey("width=") && SnapshotEntry("width=", v) == WidthEntry(v)
  {
  }

  lemma HeightKey(v: string)
    ensures SnapshotKey("height=") && SnapshotEntry("height=", v) == HeightEntry(v)
  {
  }

  lemma GoldRemainingKey(v: string)
    ensures SnapshotKey("gold_remaining=") && SnapshotEntry("gold_remaining=", v) == GoldRemainingEntry(v)
  {
  }

  lemma GoldTotalKey(v: string)
    ensures SnapshotKey("gold_total=") && SnapshotEntry("gold_total=", v) == GoldTotalEntry(v)
  {
  }

  lemma ExitEnabledKey(v: string)
    ensures SnapshotKey("exit_enabled=") && SnapshotEntry("exit_enabled=", v) == ExitEnabledEntry(v)
  {
  }

  lemma SpawnKey(v: string)
    ensures SnapshotKey("player_spawn=") && SnapshotEntry("player_spawn=", v) == SpawnEntry(v)
  {
  }

  lemma PlayerKey(v: string)
    ensures SnapshotKey("player=") && SnapshotEntry("player=", v) == PlayerEntry(v)
  {
  }

  lemma GuardKey(v: string)
    ensures SnapshotKey("guard=") && SnapshotEntry("guard=", v) == GuardEntry(v)
  {
  }

  lemma HoleKey(v: string)
    ensures SnapshotKey("hole=") && SnapshotEntry("hole=", v) == HoleEntry(v)
  {
  }

  lemma DigKey(v: string)
    ensures SnapshotKey("dig=") && SnapshotEntry("dig=", v) == DigEntry(v)
  {
  }

  lemma ExitColsKey(v: string)
    ensures SnapshotKey("exit_cols=") && SnapshotEntry("exit_cols=", v) == ExitColsEntry(v)
  {
  }

  lemma HiddenLadderKey(v: string)
    ensures SnapshotKey("hidden_ladder=") && SnapshotEntry("hidden_ladder=", v) == HiddenLadderEntry(v)
  {
  }

  /** A snapshot line with a solid value is read as the entry its key
      names. */
  lemma AbsorbKeyLine(acc: Acc, key: string, val: string, e: Entry)
    requires SnapshotKey(key) && Solid(val) && SnapshotEntry(key, val) == e
    ensures Absorb(acc, key + val) == AbsorbEntry(acc, e)
  {
    var l := key + val;
    KeyedIsSolid(key, val);
    assert l[..|key|] == key && l[|key|..] == val;
    assert !("tile_row=" <= l) by {
      assert IsKey("tile_row=");
      KeyOfIsPrefix(l, "tile_row=");
      KeyOfIsPrefix(l, key);
    }
    PastFlag(l, key);
    AbsorbSolid(acc, l);
  }

  lemma AbsorbTickLine(acc: Acc, v: string)
    requires Solid(v)
    ensures Absorb(acc, "tick=" + v) == acc.(tick := OrZero(ParseUint(Trim(v), U64_MAX)))
  {
    TickKey(v);
    AbsorbKeyLine(acc, "tick=", v, TickEntry(v));
  }

  lemma AbsorbWidthLine(acc: Acc, v: string)
    requires Solid(v)
    ensures Absorb(acc, "width=" + v) == acc.(width := OrZero(Usize(v)))
  {
    WidthKey(v);
    AbsorbKeyLine(acc, "width=", v, WidthEntry(v));
  }

  lemma AbsorbHeightLine(acc: Acc, v: string)
    requires Solid(v)
    ensures Absorb(acc, "height=" + v) == acc.(height := OrZero(Usize(v)))
  {
    HeightKey(v);
    AbsorbKeyLine(acc, "height=", v, HeightEntry(v));
  }

  lemma AbsorbGoldRemainingLine(acc: Acc, v: string)
    requires Solid(v)
    ensures Absorb(acc, "gold_remaining=" + v) == acc.(goldRemaining := OrZero(Usize(v)))
  {
    GoldRemainingKey(v);
    AbsorbKeyLine(acc, "gold_remaining=", v, GoldRemainingEntry(v));
  }

  lemma AbsorbGoldTotalLine(acc: Acc, v: string)
    requires Solid(v)
    ensures Absorb(acc, "gold_total=" + v) == acc.(goldTotal := OrZero(Usize(v)))
  {
    GoldTotalKey(v);
    AbsorbKeyLine(acc, "gold_total=", v, GoldTotalEntry(v));
  }

  lemma AbsorbExitEnabledLine(acc: Acc, v: string)
    requires Solid(v)
    ensures Absorb(acc, "exit_enabled=" + v) == acc.(exitEnabled := Trim(v) == "1")
  {
    ExitEnabledKey(v);
    AbsorbKeyLine(acc, "exit_enabled=", v, ExitEnabledEntry(v));
  }

  lemma AbsorbSpawnLine(acc: Acc, v: string)
    requires Solid(v)
    ensures Absorb(acc, "player_spawn=" + v) == acc.(playerSpawn := SpawnOf(v, acc.playerSpawn))
  {
    SpawnKey(v);
    AbsorbKeyLine(acc, "player_spawn=", v, SpawnEntry(v));
  }

  lemma AbsorbPlayerLine(acc: Acc, v: string)
    requires Solid(v)
    ensures Absorb(acc, "player=" + v) == acc.(player := ParsePlayer(v))
  {
    PlayerKey(v);
    AbsorbKeyLine(acc, "player=", v, PlayerEntry(v));
  }

  lemma AbsorbGuardLine(acc: Acc, v: string)
    requires Solid(v)
    ensures Absorb(acc, "guard=" + v) == AbsorbEntry(acc, GuardEntry(v))
  {
    GuardKey(v);
    AbsorbKeyLine(acc, "guard=", v, GuardEntry(v));
  }

  lemma AbsorbHoleLine(acc: Acc, v: string)
    requires Solid(v)
    ensures Absorb(acc, "hole=" + v) == AbsorbEntry(acc, HoleEntry(v))
  {
    HoleKey(v);
    AbsorbKeyLine(acc, "hole=", v, HoleEntry(v));
  }

  lemma AbsorbDigLine(acc: Acc, v: string)
    requires Solid(v)
    ensures Absorb(acc, "dig=" + v) == AbsorbEntry(acc, DigEntry(v))
  {
    DigKey(v);
    AbsorbKeyLine(acc, "dig=", v, DigEntry(v));
  }

  lemma AbsorbExitColsLine(acc: Acc, v: string)
    requires Solid(v)
    ensures Absorb(acc, "exit_cols=" + v) == acc.(exitColumns := ParsedColumns(Split(v, ',')))
  {
    ExitColsKey(v);
    AbsorbKeyLine(acc, "exit_cols=", v, ExitColsEntry(v));
  }

  lemma AbsorbLadderLine(acc: Acc, v: string)
    requires Solid(v)
    ensures Absorb(acc, "hidden_ladder=" + v) == AbsorbEntry(acc, HiddenLadderEntry(v))
  {
    HiddenLadderKey(v);
    AbsorbKeyLine(acc, "hidden_ladder=", v, HiddenLadderEntry(v));
  }

  /** A tile row line is read whole, whatever its text. */
  lemma AbsorbRowLine(acc: Acc, row: seq<Tile>)
    ensures Absorb(acc, RowLine(row)) == acc.(tileRows := acc.tileRows + [row])
  {
    var l := RowLine(row);
    assert "tile_row=" <= l && l[9..] == RowText(row);
    RowTextReadsBack(row);
  }

  /** A number as `serialize` writes it is solid and reads back. */
  lemma NumFacts(n: nat, max: nat)
    requires n <= max
    ensures Solid(Num(n)) && ParseUint(Trim(Num(n)), max) == Some(n)
  {
    NumIsSolid(n);
    NumReadsBack(n, max);
  }

  lemma SpawnReadsBack(spawn: (nat, nat), previous: (nat, nat))
    requires PairFits(spawn)
    ensures Solid(Num(spawn.0) + "," + Num(spawn.1))
    ensures SpawnOf(Num(spawn.0) + "," + Num(spawn.1), previous) == spawn
  {
    PairReadsBack(spawn.0, spawn.1);
    UsizeOfNum(spawn.0);
    UsizeOfNum(spawn.1);
  }

  /** The accumulators once the head of the snapshot `s` is read. */
  function HeadRead(acc: Acc, s: Snapshot): Acc
  {
    acc.(hasSnapshot := true, tick := s.tick, width := s.width, height := s.height,
         goldRemaining := s.goldRemaining, goldTotal := s.goldTotal, exitEnabled := s.exitEnabled,
         playerSpawn := s.playerSpawn, player := Some(s.player))
  }

  lemma AbsorbHeadA(acc: Acc, s: Snapshot)
    requires SnapshotFits(s)
    ensures AbsorbAll(acc, SnapshotHead(s)[..3])
         == acc.(hasSnapshot := true, tick := s.tick, width := s.width)
  {
    var h := SnapshotHead(s);
    assert h[0] == "has_snapshot=1" && h[1] == "tick=" + Num(s.tick) && h[2] == "width=" + Num(s.width);
    assert h[..3] == [h[0], h[1], h[2]];
    NumFacts(s.tick, U64_MAX);
    NumFacts(s.width, USIZE_MAX);
    AbsorbAll3(acc, h[0], h[1], h[2]);
    AbsorbFlag(acc, h[0]);
    var a1 := Absorb(acc, h[0]);
    AbsorbTickLine(a1, Num(s.tick));
    var a2 := Absorb(a1, h[1]);
    assert a2 == a1.(tick := s.tick);
    AbsorbWidthLine(a2, Num(s.width));
  }

  lemma AbsorbHeadB(acc: Acc, s: Snapshot)
    requires SnapshotFits(s)
    ensures AbsorbAll(acc, SnapshotHead(s)[3..6])
         == acc.(height := s.height, goldRemaining := s.goldRemaining, goldTotal := s.goldTotal)
  {
    var h := SnapshotHead(s);
    assert h[3] == "height=" + Num(s.height) && h[4] == "gold_remaining=" + Num(s.goldRemaining)
      && h[5] == "gold_total=" + Num(s.goldTotal);
    assert h[3..6] == [h[3], h[4], h[5]];
    NumFacts(s.height, USIZE_MAX);
    NumFacts(s.goldRemaining, USIZE_MAX);
    NumFacts(s.goldTotal, USIZE_MAX);
    AbsorbAll3(acc, h[3], h[4], h[5]);
    AbsorbHeightLine(acc, Num(s.height));
    var a1 := Absorb(acc, h[3]);
    assert a1 == acc.(height := s.height);
    AbsorbGoldRemainingLine(a1, Num(s.goldRemaining));
    var a2 := Absorb(a1, h[4]);
    assert a2 == a1.(goldRemaining := s.goldRemaining);
    AbsorbGoldTotalLine(a2, Num(s.goldTotal));
  }

  lemma AbsorbHeadC(acc: Acc, s: Snapshot)
    requires SnapshotFits(s)
    ensures AbsorbAll(acc, SnapshotHead(s)[6..])
         == acc.(exitEnabled := s.exitEnabled, playerSpawn := s.playerSpawn, player := Some(s.player))
  {
    var h := SnapshotHead(s);
    var spawn := Num(s.playerSpawn.0) + "," + Num(s.playerSpawn.1);
    assert h[6] == "exit_enabled=" + Flag(s.exitEnabled) && h[7] == "player_spawn=" + spawn
      && h[8] == "player=" + Join(PlayerFields(s.player), ',');
    assert h[6..] == [h[6], h[7], h[8]];
    FlagReadsBack(s.exitEnabled);
    SpawnReadsBack(s.playerSpawn, acc.playerSpawn);
    PlayerFieldsReadBack(s.player);
    AbsorbAll3(acc, h[6], h[7], h[8]);
    AbsorbExitEnabledLine(acc, Flag(s.exitEnabled));
    var a1 := Absorb(acc, h[6]);
    assert a1 == acc.(exitEnabled := s.exitEnabled);
    AbsorbSpawnLine(a1, spawn);
    var a2 := Absorb(a1, h[7]);
    assert a2 == a1.(playerSpawn := s.playerSpawn);
    AbsorbPlayerLine(a2, Join(PlayerFields(s.player), ','));
  }

  /** Reading the head of a snapshot sets the flag and every scalar field. */
  lemma AbsorbHead(acc: Acc, s: Snapshot)
    requires SnapshotFits(s)
    ensures AbsorbAll(acc, SnapshotHead(s)) == HeadRead(acc, s)
  {
    var h := SnapshotHead(s);
    assert h == h[..3] + h[3..6] + h[6..];
    AbsorbAllAppend(acc, h[..3] + h[3..6], h[6..]);
    AbsorbAllAppend(acc, h[..3], h[3..6]);
    AbsorbHeadA(acc, s);
    var a1 := acc.(hasSnapshot := true, tick := s.tick, width := s.width);
    AbsorbHeadB(a1, s);
    var a2 := a1.(height := s.height, goldRemaining := s.goldRemaining, goldTotal := s.goldTotal);
    AbsorbHeadC(a2, s);
  }

  // ---------------------------------------------------------------------
  // Records and the tail
  // ---------------------------------------------------------------------

  // Each record line is read in three steps, one lemma each: the key
  // names the entry (`AbsorbGuardLine`), the entry appends what its parser
  // returns (`GuardEntryStep`), and the parser gives the record back
  // (`GuardFieldsReadBack`).

  lemma GuardEntryStep(acc: Acc, v: string)
    ensures AbsorbEntry(acc, GuardEntry(v))
         == (var r := ParseGuard(v); if r.Some? then acc.(guards := acc.guards + [r.value]) else acc)
  {
  }

  lemma HoleEntryStep(acc: Acc, v: string)
    ensures AbsorbEntry(acc, HoleEntry(v))
         == (var r := ParseHole(v); if r.Some? then acc.(holes := acc.holes + [r.value]) else acc)
  {
  }

  lemma DigEntryStep(acc: Acc, v: string)
    ensures AbsorbEntry(acc, DigEntry(v))
         == (var r := ParseDig(v); if r.Some? then acc.(digs := acc.digs + [r.value]) else acc)
  {
  }

  lemma LadderEntryStep(acc: Acc, v: string)
    ensures AbsorbEntry(acc, HiddenLadderEntry(v))
         == (var r := LadderOf(v); if r.Some? then acc.(hiddenLadders := acc.hiddenLadders + [r.value]) else acc)
  {
  }

  /** One guard line, as `serialize` writes it, appends that guard. */
  lemma AbsorbGuard(acc: Acc, g: Guard)
    requires GuardFits(g)
    ensures Absorb(acc, GuardLine(g)) == acc.(guards := acc.guards + [g])
  {
    var v := Join(GuardFields(g), ',');
    GuardFieldsReadBack(g);
    AbsorbGuardLine(acc, v);
    GuardEntryStep(acc, v);
  }

  lemma AbsorbHole(acc: Acc, h: Hole)
    requires HoleFits(h)
    ensures Absorb(acc, HoleLine(h)) == acc.(holes := acc.holes + [h])
  {
    var v := Join(HoleFields(h), ',');
    HoleFieldsReadBack(h);
    AbsorbHoleLine(acc, v);
    HoleEntryStep(acc, v);
  }

  lemma AbsorbDig(acc: Acc, d: DigInProgress)
    requires DigFits(d)
    ensures Absorb(acc, DigLine(d)) == acc.(digs := acc.digs + [d])
  {
    var v := Join(DigFields(d), ',');
    DigFieldsReadBack(d);
    AbsorbDigLine(acc, v);
    DigEntryStep(acc, v);
  }

  lemma LadderReadsBack(p: (nat, nat))
    requires PairFits(p)
    ensures Solid(Num(p.0) + "," + Num(p.1)) && LadderOf(Num(p.0) + "," + Num(p.1)) == Some(p)
  {
    PairReadsBack(p.0, p.1);
    UsizeOfNum(p.0);
    UsizeOfNum(p.1);
  }

  lemma AbsorbLadder(acc: Acc, p: (nat, nat))
    requires PairFits(p)
    ensures Absorb(acc, LadderLine(p)) == acc.(hiddenLadders := acc.hiddenLadders + [p])
  {
    var v := Num(p.0) + "," + Num(p.1);
    assert LadderLine(p) == "hidden_ladder=" + v;
    LadderReadsBack(p);
    AbsorbLadderLine(acc, v);
    LadderEntryStep(acc, v);
  }

  lemma ConsTail<T>(p: seq<T>, s: seq<T>)
    requires |s| > 0
    ensures p + [s[0]] + s[1..] == p + s
  {
    assert s == [s[0]] + s[1..];
  }

  // The record groups are read by one argument over an abstract step:
  // lines that each add one record, read in turn, add all the records in
  // turn (`FoldEach`).

  /** Reading `ls` in turn with `step`. */
  function FoldLines<A>(step: (A, string) -> A, acc: A, ls: seq<string>): A
    decreases |ls|
  {
    if |ls| == 0 then acc else FoldLines(step, step(acc, ls[0]), ls[1..])
  }

  /** Adding `rs` in turn with `add`. */
  function AddAll<A, R>(add: (A, R) -> A, acc: A, rs: seq<R>): A
    decreases |rs|
  {
    if |rs| == 0 then acc else AddAll(add, add(acc, rs[0]), rs[1..])
  }

  lemma {:induction false} AbsorbAllIsFold(acc: Acc, ls: seq<string>)
    ensures AbsorbAll(acc, ls) == FoldLines(Absorb, acc, ls)
    decreases |ls|
  {
    if |ls| > 0 {
      AbsorbAllIsFold(Absorb(acc, ls[0]), ls[1..]);
    }
  }

  lemma {:induction false} FoldEach<A, R>(step: (A, string) -> A, add: (A, R) -> A, acc: A,
                                          ls: seq<string>, rs: seq<R>)
    requires |ls| == |rs|
    requires forall i, a :: 0 <= i < |ls| ==> step(a, ls[i]) == add(a, rs[i])
    ensures FoldLines(step, acc, ls) == AddAll(add, acc, rs)
    decreases |ls|
  {
    if |ls| > 0 {
      assert forall i, a :: 0 <= i < |ls[1..]| ==> step(a, ls[1..][i]) == add(a, rs[1..][i]) by {
        forall i, a | 0 <= i < |ls[1..]| ensures step(a, ls[1..][i]) == add(a, rs[1..][i]) {
          assert ls[1..][i] == ls[i + 1] && rs[1..][i] == rs[i + 1];
        }
      }
      FoldEach(step, add, step(acc, ls[0]), ls[1..], rs[1..]);
    }
  }

  function AddGuard(a: Acc, g: Guard): Acc { a.(guards := a.guards + [g]) }
  function AddHole(a: Acc, h: Hole): Acc { a.(holes := a.holes + [h]) }
  function AddDig(a: Acc, d: DigInProgress): Acc { a.(digs := a.digs + [d]) }
  function AddLadder(a: Acc, p: (nat, nat)): Acc { a.(hiddenLadders := a.hiddenLadders + [p]) }
  function AddRow(a: Acc, row: seq<Tile>): Acc { a.(tileRows := a.tileRows + [row]) }

  lemma {:induction false} AddGuards(acc: Acc, gs: seq<Guard>)
    ensures AddAll(AddGuard, acc, gs) == acc.(guards := acc.guards + gs)
    decreases |gs|
  {
    if |gs| == 0 {
      assert acc.guards + gs == acc.guards;
    } else {
      AddGuards(AddGuard(acc, gs[0]), gs[1..]);
      ConsTail(acc.guards, gs);
    }
  }

  lemma {:induction false} AddHoles(acc: Acc, hs: seq<Hole>)
    ensures AddAll(AddHole, acc, hs) == acc.(holes := acc.holes + hs)
    decreases |hs|
  {
    if |hs| == 0 {
      assert acc.holes + hs == acc.holes;
    } else {
      AddHoles(AddHole(acc, hs[0]), hs[1..]);
      ConsTail(acc.holes, hs);
    }
  }

  lemma {:induction false} AddDigs(acc: Acc, ds: seq<DigInProgress>)
    ensures AddAll(AddDig, acc, ds) == acc.(digs := acc.digs + ds)
    decreases |ds|
  {
    if |ds| == 0 {
      assert acc.digs + ds == acc.digs;
    } else {
      AddDigs(AddDig(acc, ds[0]), ds[1..]);
      ConsTail(acc.digs, ds);
    }
  }

  lemma {:induction false} AddLadders(acc: Acc, ps: seq<(nat, nat)>)
    ensures AddAll(AddLadder, acc, ps) == acc.(hiddenLadders := acc.hiddenLadders + ps)
    decreases |ps|
  {
    if |ps| == 0 {
      assert acc.hiddenLadders + ps == acc.hiddenLadders;
    } else {
      AddLadders(AddLadder(acc, ps[0]), ps[1..]);
      ConsTail(acc.hiddenLadders, ps);
    }
  }

  lemma {:induction false} AddRows(acc: Acc, rows: seq<seq<Tile>>)
    ensures AddAll(AddRow, acc, rows) == acc.(tileRows := acc.tileRows + rows)
    decreases |rows|
  {
    if |rows| == 0 {
      assert acc.tileRows + rows == acc.tileRows;
    } else {
      AddRows(AddRow(acc, rows[0]), rows[1..]);
      ConsTail(acc.tileRows, rows);
    }
  }

  /** The guard lines `serialize` writes give the guards back, in order. */
  lemma AbsorbGuards(acc: Acc, gs: seq<Guard>)
    requires forall i :: 0 <= i < |gs| ==> GuardFits(gs[i])
    ensures AbsorbAll(acc, GuardLines(gs)) == acc.(guards := acc.guards + gs)
  {
    var ls := GuardLines(gs);
    forall i, a | 0 <= i < |ls| ensures Absorb(a, ls[i]) == AddGuard(a, gs[i]) {
      AbsorbGuard(a, gs[i]);
    }
    AbsorbAllIsFold(acc, ls);
    FoldEach(Absorb, AddGuard, acc, ls, gs);
    AddGuards(acc, gs);
  }

  lemma AbsorbHoles(acc: Acc, hs: seq<Hole>)
    requires forall i :: 0 <= i < |hs| ==> HoleFits(hs[i])
    ensures AbsorbAll(acc, HoleLines(hs)) == acc.(holes := acc.holes + hs)
  {
    var ls := HoleLines(hs);
    forall i, a | 0 <= i < |ls| ensures Absorb(a, ls[i]) == AddHole(a, hs[i]) {
      AbsorbHole(a, hs[i]);
    }
    AbsorbAllIsFold(acc, ls);
    FoldEach(Absorb, AddHole, acc, ls, hs);
    AddHoles(acc, hs);
  }

  lemma AbsorbDigs(acc: Acc, ds: seq<DigInProgress>)
    requires forall i :: 0 <= i < |ds| ==> DigFits(ds[i])
    ensures AbsorbAll(acc, DigLines(ds)) == acc.(digs := acc.digs + ds)
  {
    var ls := DigLines(ds);
    forall i, a | 0 <= i < |ls| ensures Absorb(a, ls[i]) == AddDig(a, ds[i]) {
      AbsorbDig(a, ds[i]);
    }
    AbsorbAllIsFold(acc, ls);
    FoldEach(Absorb, AddDig, acc, ls, ds);
    AddDigs(acc, ds);
  }

  lemma AbsorbLadders(acc: Acc, ps: seq<(nat, nat)>)
    requires forall i :: 0 <= i < |ps| ==> PairFits(ps[i])
    ensures AbsorbAll(acc, LadderLines(ps)) == acc.(hiddenLadders := acc.hiddenLadders + ps)
  {
    var ls := LadderLines(ps);
    forall i, a | 0 <= i < |ls| ensures Absorb(a, ls[i]) == AddLadder(a, ps[i]) {
      AbsorbLadder(a, ps[i]);
    }
    AbsorbAllIsFold(acc, ls);
    FoldEach(Absorb, AddLadder, acc, ls, ps);
    AddLadders(acc, ps);
  }

  /** Tile row lines give every row back whole, in order. */
  lemma AbsorbRows(acc: Acc, rows: seq<seq<Tile>>)
    ensures AbsorbAll(acc, RowLines(rows)) == acc.(tileRows := acc.tileRows + rows)
  {
    var ls := RowLines(rows);
    forall i, a | 0 <= i < |ls| ensures Absorb(a, ls[i]) == AddRow(a, rows[i]) {
      AbsorbRowLine(a, rows[i]);
    }
    AbsorbAllIsFold(acc, ls);
    FoldEach(Absorb, AddRow, acc, ls, rows);
    AddRows(acc, rows);
  }

  /** The exit columns line, written only when there are exit columns,
      gives them back. */
  lemma AbsorbColumns(acc: Acc, cols: seq<nat>)
    requires forall i :: 0 <= i < |cols| ==> cols[i] <= USIZE_MAX
    ensures AbsorbAll(acc, ColumnLines(cols))
         == if |cols| == 0 then acc else acc.(exitColumns := cols)
  {
    if |cols| > 0 {
      var v := Join(Columns(cols), ',');
      ColumnsJoined(cols);
      ParsedColumnsOfNums(cols);
      AbsorbExitColsLine(acc, v);
      AbsorbAllOne(acc, "exit_cols=" + v);
    }
  }

  // ---------------------------------------------------------------------
  // The whole text
  // ---------------------------------------------------------------------

  ghost predicate AllPlain(ls: seq<string>)
  {
    forall i :: 0 <= i < |ls| ==> PlainLine(ls[i])
  }

  lemma AllPlainAppend(a: seq<string>, b: seq<string>)
    requires AllPlain(a) && AllPlain(b)
    ensures AllPlain(a + b)
  {
    forall i | 0 <= i < |a + b| ensures PlainLine((a + b)[i]) {
      if i < |a| { assert (a + b)[i] == a[i]; } else { assert (a + b)[i] == b[i - |a|]; }
    }
  }

  lemma SolidIsPlain(l: string)
    requires Solid(l)
    ensures PlainLine(l)
  {
  }

  lemma Plain3(x: string, y: string, z: string)
    requires PlainLine(x) && PlainLine(y) && PlainLine(z)
    ensures AllPlain([x, y, z])
  {
  }

  lemma NumLineIsPlain(key: string, n: nat)
    requires |key| > 0 && '\n' !in key && '\r' !in key
    ensures PlainLine(key + Num(n))
  {
    NumIsSolid(n);
    KeyedIsSolid(key, Num(n));
  }

  lemma HeadIsPlainA(s: Snapshot)
    ensures AllPlain(SnapshotHead(s)[..3])
  {
    var h := SnapshotHead(s);
    assert h[0] == "has_snapshot=1" && h[1] == "tick=" + Num(s.tick) && h[2] == "width=" + Num(s.width);
    assert h[..3] == [h[0], h[1], h[2]];
    NumLineIsPlain("tick=", s.tick);
    NumLineIsPlain("width=", s.width);
    Plain3(h[0], h[1], h[2]);
  }

  lemma HeadIsPlainB(s: Snapshot)
    ensures AllPlain(SnapshotHead(s)[3..6])
  {
    var h := SnapshotHead(s);
    assert h[3] == "height=" + Num(s.height) && h[4] == "gold_remaining=" + Num(s.goldRemaining)
      && h[5] == "gold_total=" + Num(s.goldTotal);
    assert h[3..6] == [h[3], h[4], h[5]];
    NumLineIsPlain("height=", s.height);
    NumLineIsPlain("gold_remaining=", s.goldRemaining);
    NumLineIsPlain("gold_total=", s.goldTotal);
    Plain3(h[3], h[4], h[5]);
  }

  lemma PlayerLineIsPlain(p: SnapshotPlayer)
    ensures PlainLine("player=" + Join(PlayerFields(p), ','))
  {
    PlayerFieldsSolid(p);
    KeyedIsSolid("player=", Join(PlayerFields(p), ','));
  }

  lemma PairLineIsPlain(key: string, x: nat, y: nat)
    requires |key| > 0 && '\n' !in key && '\r' !in key
    ensures PlainLine(key + (Num(x) + "," + Num(y)))
  {
    PairReadsBack(x, y);
    KeyedIsSolid(key, Num(x) + "," + Num(y));
  }

  lemma HeadIsPlainC(s: Snapshot)
    ensures AllPlain(SnapshotHead(s)[6..])
  {
    var h := SnapshotHead(s);
    var spawn := Num(s.playerSpawn.0) + "," + Num(s.playerSpawn.1);
    assert h[6] == "exit_enabled=" + Flag(s.exitEnabled) && h[7] == "player_spawn=" + spawn
      && h[8] == "player=" + Join(PlayerFields(s.player), ',');
    assert h[6..] == [h[6], h[7], h[8]];
    FlagReadsBack(s.exitEnabled);
    KeyedIsSolid("exit_enabled=", Flag(s.exitEnabled));
    PairLineIsPlain("player_spawn=", s.playerSpawn.0, s.playerSpawn.1);
    PlayerLineIsPlain(s.player);
    Plain3(h[6], h[7], h[8]);
  }

  lemma HeadIsPlain(s: Snapshot)
    ensures AllPlain(SnapshotHead(s))
  {
    var h := SnapshotHead(s);
    assert h == h[..3] + h[3..6] + h[6..];
    HeadIsPlainA(s);
    HeadIsPlainB(s);
    HeadIsPlainC(s);
    AllPlainAppend(h[..3], h[3..6]);
    AllPlainAppend(h[..3] + h[3..6], h[6..]);
  }

  lemma GuardLineIsPlain(g: Guard)
    ensures PlainLine(GuardLine(g))
  {
    GuardFieldsSolid(g);
    KeyedIsSolid("guard=", Join(GuardFields(g), ','));
  }

  lemma HoleLineIsPlain(h: Hole)
    ensures PlainLine(HoleLine(h))
  {
    HoleFieldsSolid(h);
    KeyedIsSolid("hole=", Join(HoleFields(h), ','));
  }

  lemma DigLineIsPlain(d: DigInProgress)
    ensures PlainLine(DigLine(d))
  {
    DigFieldsSolid(d);
    KeyedIsSolid("dig=", Join(DigFields(d), ','));
  }

  lemma LadderLineIsPlain(p: (nat, nat))
    ensures PlainLine(LadderLine(p))
  {
    PairLineIsPlain("hidden_ladder=", p.0, p.1);
    assert LadderLine(p) == "hidden_ladder=" + (Num(p.0) + "," + Num(p.1));
  }

  lemma RowLineIsPlain(row: seq<Tile>)
    ensures PlainLine(RowLine(row))
  {
    var l := RowLine(row);
    forall k | 0 <= k < |l| ensures l[k] != '\n' && l[k] != '\r' {
      if k >= 9 {
        assert l[k] == RowText(row)[k - 9] == TileToChar(row[k - 9]);
      }
    }
  }

  lemma ColumnLinesArePlain(cols: seq<nat>)
    ensures AllPlain(ColumnLines(cols))
  {
    if |cols| > 0 {
      ColumnsJoined(cols);
      KeyedIsSolid("exit_cols=", Join(Columns(cols), ','));
    }
  }

  lemma RecordsArePlain(s: Snapshot)
    ensures AllPlain(RecordLines(s))
  {
    var gl := GuardLines(s.guards);
    var hl := HoleLines(s.holes);
    var dl := DigLines(s.digs);
    forall i | 0 <= i < |gl| ensures PlainLine(gl[i]) {
      GuardLineIsPlain(s.guards[i]);
    }
    forall i | 0 <= i < |hl| ensures PlainLine(hl[i]) {
      HoleLineIsPlain(s.holes[i]);
    }
    forall i | 0 <= i < |dl| ensures PlainLine(dl[i]) {
      DigLineIsPlain(s.digs[i]);
    }
    AllPlainAppend(gl, hl);
    AllPlainAppend(gl + hl, dl);
  }

  lemma TailIsPlain(s: Snapshot)
    ensures AllPlain(TailLines(s))
  {
    var cl := ColumnLines(s.exitColumns);
    var ll := LadderLines(s.hiddenLadderPositions);
    var rl := RowLines(s.tiles);
    ColumnLinesArePlain(s.exitColumns);
    forall i | 0 <= i < |ll| ensures PlainLine(ll[i]) {
      LadderLineIsPlain(s.hiddenLadderPositions[i]);
    }
    forall i | 0 <= i < |rl| ensures PlainLine(rl[i]) {
      RowLineIsPlain(s.tiles[i]);
    }
    AllPlainAppend(cl, ll);
    AllPlainAppend(cl + ll, rl);
  }

  lemma SaveLinesArePlain(level: nat, score: nat, lives: nat, snapshot: Option<Snapshot>)
    ensures AllPlain(SaveLines(level, score, lives, snapshot))
  {
    HeaderLinesArePlain(level, score, lives);
    var hd := HeaderLines(level, score, lives);
    assert AllPlain(hd);
    assert SaveLines(level, score, lives, snapshot)
        == hd + (if snapshot.Some? then SnapshotLines(snapshot.value) else []);
    if snapshot.Some? {
      var s := snapshot.value;
      HeadIsPlain(s);
      RecordsArePlain(s);
      TailIsPlain(s);
      AllPlainAppend(SnapshotHead(s), RecordLines(s));
      AllPlainAppend(SnapshotHead(s) + RecordLines(s), TailLines(s));
      AllPlainAppend(hd, SnapshotLines(s));
    } else {
      AllPlainAppend(hd, []);
    }
  }

  /** The accumulators once all of snapshot `s` is read. */
  function SnapshotRead(acc: Acc, s: Snapshot): Acc
  {
    HeadRead(acc, s).(guards := acc.guards + s.guards, holes := acc.holes + s.holes,
                      digs := acc.digs + s.digs,
                      exitColumns := if |s.exitColumns| == 0 then acc.exitColumns else s.exitColumns,
                      hiddenLadders := acc.hiddenLadders + s.hiddenLadderPositions,
                      tileRows := acc.tileRows + s.tiles)
  }

  lemma AbsorbRecords(acc: Acc, s: Snapshot)
    requires SnapshotFits(s)
    ensures AbsorbAll(acc, RecordLines(s))
         == acc.(guards := acc.guards + s.guards, holes := acc.holes + s.holes, digs := acc.digs + s.digs)
  {
    var gl := GuardLines(s.guards);
    var hl := HoleLines(s.holes);
    var dl := DigLines(s.digs);
    AbsorbAllAppend(acc, gl + hl, dl);
    AbsorbAllAppend(acc, gl, hl);
    AbsorbGuards(acc, s.guards);
    var a1 := acc.(guards := acc.guards + s.guards);
    AbsorbHoles(a1, s.holes);
    var a2 := a1.(holes := acc.holes + s.holes);
    AbsorbDigs(a2, s.digs);
  }

  lemma AbsorbTail(acc: Acc, s: Snapshot)
    requires SnapshotFits(s)
    ensures AbsorbAll(acc, TailLines(s))
         == acc.(exitColumns := if |s.exitColumns| == 0 then acc.exitColumns else s.exitColumns,
                 hiddenLadders := acc.hiddenLadders + s.hiddenLadderPositions,
                 tileRows := acc.tileRows + s.tiles)
  {
    var cl := ColumnLines(s.exitColumns);
    var ll := LadderLines(s.hiddenLadderPositions);
    var rl := RowLines(s.tiles);
    AbsorbAllAppend(acc, cl + ll, rl);
    AbsorbAllAppend(acc, cl, ll);
    AbsorbColumns(acc, s.exitColumns);
    var a1 := acc.(exitColumns := if |s.exitColumns| == 0 then acc.exitColumns else s.exitColumns);
    AbsorbLadders(a1, s.hiddenLadderPositions);
    var a2 := a1.(hiddenLadders := acc.hiddenLadders + s.hiddenLadderPositions);
    AbsorbRows(a2, s.tiles);
  }

  /** Reading every line of a snapshot sets each field it writes. */
  lemma AbsorbSnapshot(acc: Acc, s: Snapshot)
    requires SnapshotFits(s)
    ensures AbsorbAll(acc, SnapshotLines(s)) == SnapshotRead(acc, s)
  {
    var hd := SnapshotHead(s);
    var rc := RecordLines(s);
    AbsorbAllAppend(acc, hd + rc, TailLines(s));
    AbsorbAllAppend(acc, hd, rc);
    AbsorbHead(acc, s);
    var a1 := HeadRead(acc, s);
    AbsorbRecords(a1, s);
    var a2 := a1.(guards := acc.guards + s.guards, holes := acc.holes + s.holes, digs := acc.digs + s.digs);
    AbsorbTail(a2, s);
  }

  /** The lines of the text `serialize` writes are the lines it wrote. */
  lemma SaveTextLines(level: nat, score: nat, lives: nat, snapshot: Option<Snapshot>)
    ensures Lines(SaveText(level, score, lives, snapshot)) == SaveLines(level, score, lives, snapshot)
  {
    SaveLinesArePlain(level, score, lives, snapshot);
    LinesOfUnlines(SaveLines(level, score, lives, snapshot));
  }

  /** The accumulators once the header is read from the start. */
  function HeaderRead(level: nat, score: nat, lives: nat): Acc
  {
    Start.(level := Some(level), score := Some(score), lives := Some(lives))
  }

  lemma AbsorbSaveLines(level: nat, score: nat, lives: nat, snapshot: Option<Snapshot>)
    requires level <= USIZE_MAX && score <= U32_MAX && lives <= U32_MAX
    requires snapshot.Some? ==> SnapshotFits(snapshot.value)
    ensures AbsorbAll(Start, SaveLines(level, score, lives, snapshot))
         == if snapshot.Some? then SnapshotRead(HeaderRead(level, score, lives), snapshot.value)
            else HeaderRead(level, score, lives)
  {
    var hd := HeaderLines(level, score, lives);
    var rest := if snapshot.Some? then SnapshotLines(snapshot.value) else [];
    assert SaveLines(level, score, lives, snapshot) == hd + rest;
    AbsorbAllAppend(Start, hd, rest);
    AbsorbHeader(Start, level, score, lives);
    if snapshot.Some? {
      AbsorbSnapshot(HeaderRead(level, score, lives), snapshot.value);
    }
  }

  /** A snapshot read after the header is rebuilt by `Finish`. */
  lemma FinishSnapshot(level: nat, score: nat, lives: nat, s: Snapshot)
    requires SnapshotFits(s)
    ensures Finish(SnapshotRead(HeaderRead(level, score, lives), s)) == Some(SaveData(level, score, lives, Some(s)))
  {
    var a := SnapshotRead(HeaderRead(level, score, lives), s);
    assert a.tileRows == s.tiles && a.exitColumns == s.exitColumns;
    assert a.guards == s.guards && a.holes == s.holes && a.digs == s.digs;
    assert a.hiddenLadders == s.hiddenLadderPositions;
  }

  /** What `serialize` writes, `parse_save` reads back: the level, score,
      lives and, when present, the whole snapshot, provided every number
      fits the width the parser reads it at and the snapshot has a tile
      row. */
  lemma SaveRoundTrip(level: nat, score: nat, lives: nat, snapshot: Option<Snapshot>)
    requires level <= USIZE_MAX && score <= U32_MAX && lives <= U32_MAX
    requires snapshot.Some? ==> SnapshotFits(snapshot.value)
    ensures ParseSaveText(SaveText(level, score, lives, snapshot)) == Some(SaveData(level, score, lives, snapshot))
  {
    SaveTextLines(level, score, lives, snapshot);
    AbsorbSaveLines(level, score, lives, snapshot);
    if snapshot.Some? {
      FinishSnapshot(level, score, lives, snapshot.value);
    }
  }

  /** A world saved mid-game and loaded back is the world it was, but for
      the player revived and the hole grid rebuilt from the holes. */
  lemma ResumeFromSave(f: WorldFields, level: nat, score: nat, lives: nat)
    requires level <= USIZE_MAX && score <= U32_MAX && lives <= U32_MAX
    requires SnapshotFits(CaptureSnapshot(f))
    ensures var d := ParseSaveText(SaveText(level, score, lives, Some(CaptureSnapshot(f))));
      d.Some? && d.value.snapshot.Some?
      && Restored(f, d.value.snapshot.value)
         == f.(player := f.player.(alive := true), holeGrid := Timers.HoleGridOf(f.holes, f.width, f.height))
  {
    SaveRoundTrip(level, score, lives, Some(CaptureSnapshot(f)));
    RestoreOfCapture(f);
  }

  // ---------------------------------------------------------------------
  // The tile row as written
  // ---------------------------------------------------------------------

  /** `row` without its trailing Empty tiles. */
  function DropTrailingEmpty(row: seq<Tile>): (r: seq<Tile>)
    ensures r <= row && (|r| == 0 || r[|r| - 1] != Empty)
    ensures forall i :: |r| <= i < |row| ==> row[i] == Empty
    decreases |row|
  {
    if |row| > 0 && row[|row| - 1] == Empty then DropTrailingEmpty(row[..|row| - 1]) else row
  }

  /** Trimming the end of a tile row line cuts exactly the trailing Empty
      tiles, which `serialize` writes as spaces. */
  lemma {:induction false} TrimEndOfRowLine(row: seq<Tile>)
    ensures TrimEnd(RowLine(row)) == RowLine(DropTrailingEmpty(row))
    decreases |row|
  {
    var l := RowLine(row);
    if |row| > 0 && row[|row| - 1] == Empty {
      assert l[|l| - 1] == TileToChar(row[|row| - 1]) == ' ';
      assert l[..|l| - 1] == RowLine(row[..|row| - 1]);
      TrimEndOfRowLine(row[..|row| - 1]);
    } else if |row| > 0 {
      assert l[|l| - 1] == TileToChar(row[|row| - 1]);
    } else {
      assert l[|l| - 1] == '=';
    }
  }

  /** `parse_save` as written reads a tile row from the line with its end
      trimmed, so a row that ends in Empty tiles comes back shorter than it
      was written; `Absorb` reads the row whole. */
  lemma SavedRowLosesTrailingEmpty(acc: Acc, row: seq<Tile>)
    ensures AbsorbAsWritten(acc, RowLine(row)).tileRows == acc.tileRows + [DropTrailingEmpty(row)]
    ensures Absorb(acc, RowLine(row)).tileRows == acc.tileRows + [row]
    ensures |row| > 0 && row[|row| - 1] == Empty ==> |DropTrailingEmpty(row)| < |row|
  {
    var l := RowLine(row);
    assert "tile_row=" <= l;
    AbsorbKeepsRowsWhole(acc, l);
    TrimEndOfRowLine(row);
    var d := DropTrailingEmpty(row);
    assert RowLine(d)[9..] == RowText(d);
    RowTextReadsBack(d);
    AbsorbRowLine(acc, row);
  }

  /** The row Brick, Empty is written as `tile_row=# ` and read back by the
      parser as written as the one-tile row Brick. */
  lemma TrailingEmptyIsCut()
    ensures AbsorbAsWritten(Start, RowLine([Brick, Empty])).tileRows == [[Brick]]
  {
    SavedRowLosesTrailingEmpty(Start, [Brick, Empty]);
    assert DropTrailingEmpty([Brick]) == [Brick];
    assert [Brick, Empty][..1] == [Brick];
  }

  // ---------------------------------------------------------------------
  // The whole save read as written
  // ---------------------------------------------------------------------

  lemma {:induction false} AsWrittenAppend(acc: Acc, a: seq<string>, b: seq<string>)
    ensures AbsorbAllAsWritten(acc, a + b) == AbsorbAllAsWritten(AbsorbAllAsWritten(acc, a), b)
    decreases |a|
  {
    if |a| > 0 {
      assert (a + b)[0] == a[0] && (a + b)[1..] == a[1..] + b;
      AsWrittenAppend(AbsorbAsWritten(acc, a[0]), a[1..], b);
    } else {
      assert a + b == b;
    }
  }

  /** None of the lines `ls` is a tile row. */
  ghost predicate NoRowLines(ls: seq<string>)
  {
    forall i :: 0 <= i < |ls| ==> !("tile_row=" <= ls[i])
  }

  /** Off the tile rows, the parser as written and `Absorb` read alike. */
  lemma {:induction false} AsWrittenAgreesOffRows(acc: Acc, ls: seq<string>)
    requires NoRowLines(ls)
    ensures AbsorbAllAsWritten(acc, ls) == AbsorbAll(acc, ls)
    decreases |ls|
  {
    if |ls| > 0 {
      assert !("tile_row=" <= ls[0]);
      assert NoRowLines(ls[1..]) by {
        forall i | 0 <= i < |ls| - 1 ensures !("tile_row=" <= ls[1..][i]) {
          assert ls[1..][i] == ls[i + 1];
        }
      }
      AsWrittenAgreesOffRows(Absorb(acc, ls[0]), ls[1..]);
    }
  }

  /** A line whose key does not start "til" is not a tile row. */
  lemma KeyedIsNotRow(key: string, rest: string)
    requires |key| >= 3 && (key[0] != 't' || key[1] != 'i' || key[2] != 'l')
    ensures !("tile_row=" <= key + rest)
  {
    var l := key + rest;
    assert l[0] == key[0] && l[1] == key[1] && l[2] == key[2];
  }

  /** Every line `serialize` writes before the tile rows. */
  function LinesBeforeRows(level: nat, score: nat, lives: nat, snapshot: Option<Snapshot>): seq<string>
  {
    HeaderLines(level, score, lives)
    + (if snapshot.Some? then
         var s := snapshot.value;
         SnapshotHead(s) + RecordLines(s) + ColumnLines(s.exitColumns) + LadderLines(s.hiddenLadderPositions)
       else [])
  }

  lemma Regroup<T>(a: seq<T>, b: seq<T>, c: seq<T>, d: seq<T>, e: seq<T>, f: seq<T>)
    ensures a + (b + c + (d + e + f)) == (a + (b + c + d + e)) + f
  {
  }

  /** The tile rows are the last lines of a save. */
  lemma RowsComeLast(level: nat, score: nat, lives: nat, snapshot: Option<Snapshot>)
    ensures SaveLines(level, score, lives, snapshot)
         == LinesBeforeRows(level, score, lives, snapshot)
            + (if snapshot.Some? then RowLines(snapshot.value.tiles) else [])
  {
    var hd := HeaderLines(level, score, lives);
    if snapshot.Some? {
      var s := snapshot.value;
      var hs := SnapshotHead(s);
      var rc := RecordLines(s);
      var cl := ColumnLines(s.exitColumns);
      var ll := LadderLines(s.hiddenLadderPositions);
      var rl := RowLines(s.tiles);
      assert SaveLines(level, score, lives, snapshot) == hd + (hs + rc + (cl + ll + rl));
      assert LinesBeforeRows(level, score, lives, snapshot) == hd + (hs + rc + cl + ll);
      Regroup(hd, hs, rc, cl, ll, rl);
    } else {
      assert hd + [] == hd;
    }
  }

  lemma SnapshotHeadHasNoRows(s: Snapshot)
    ensures NoRowLines(SnapshotHead(s))
  {
    var h := SnapshotHead(s);
    KeyedIsNotRow("has_snapshot=1", "");
    assert "has_snapshot=1" + "" == h[0];
    KeyedIsNotRow("tick=", Num(s.tick));
    KeyedIsNotRow("width=", Num(s.width));
    KeyedIsNotRow("height=", Num(s.height));
    KeyedIsNotRow("gold_remaining=", Num(s.goldRemaining));
    KeyedIsNotRow("gold_total=", Num(s.goldTotal));
    KeyedIsNotRow("exit_enabled=", Flag(s.exitEnabled));
    KeyedIsNotRow("player_spawn=", Num(s.playerSpawn.0) + "," + Num(s.playerSpawn.1));
    assert h[7] == "player_spawn=" + (Num(s.playerSpawn.0) + "," + Num(s.playerSpawn.1));
    KeyedIsNotRow("player=", Join(PlayerFields(s.player), ','));
  }

  lemma {:induction false} NoRowsAppend(a: seq<string>, b: seq<string>)
    requires NoRowLines(a) && NoRowLines(b)
    ensures NoRowLines(a + b)
  {
    var ab := a + b;
    forall i | 0 <= i < |ab| ensures !("tile_row=" <= ab[i]) {
      if i < |a| { assert ab[i] == a[i]; } else { assert ab[i] == b[i - |a|]; }
    }
  }

  lemma RecordsHaveNoRows(s: Snapshot)
    ensures NoRowLines(RecordLines(s))
  {
    var gl := GuardLines(s.guards);
    var hl := HoleLines(s.holes);
    var dl := DigLines(s.digs);
    forall i | 0 <= i < |gl| ensures !("tile_row=" <= gl[i]) {
      KeyedIsNotRow("guard=", Join(GuardFields(s.guards[i]), ','));
    }
    forall i | 0 <= i < |hl| ensures !("tile_row=" <= hl[i]) {
      KeyedIsNotRow("hole=", Join(HoleFields(s.holes[i]), ','));
    }
    forall i | 0 <= i < |dl| ensures !("tile_row=" <= dl[i]) {
      KeyedIsNotRow("dig=", Join(DigFields(s.digs[i]), ','));
    }
    NoRowsAppend(gl, hl);
    NoRowsAppend(gl + hl, dl);
  }

  lemma ColumnsAndLaddersHaveNoRows(s: Snapshot)
    ensures NoRowLines(ColumnLines(s.exitColumns) + LadderLines(s.hiddenLadderPositions))
  {
    var cl := ColumnLines(s.exitColumns);
    var ll := LadderLines(s.hiddenLadderPositions);
    if |cl| > 0 {
      KeyedIsNotRow("exit_cols=", Join(Columns(s.exitColumns), ','));
    }
    forall i | 0 <= i < |ll| ensures !("tile_row=" <= ll[i]) {
      var p := s.hiddenLadderPositions[i];
      KeyedIsNotRow("hidden_ladder=", Num(p.0) + "," + Num(p.1));
      assert ll[i] == "hidden_ladder=" + (Num(p.0) + "," + Num(p.1));
    }
    NoRowsAppend(cl, ll);
  }

  /** No line before the tile rows is a tile row. */
  lemma NoRowsBeforeRows(level: nat, score: nat, lives: nat, snapshot: Option<Snapshot>)
    ensures NoRowLines(LinesBeforeRows(level, score, lives, snapshot))
  {
    var hd := HeaderLines(level, score, lives);
    KeyedIsNotRow("level=", Num(level));
    KeyedIsNotRow("score=", Num(score));
    KeyedIsNotRow("lives=", Num(lives));
    assert NoRowLines(hd);
    if snapshot.Some? {
      var s := snapshot.value;
      var hs := SnapshotHead(s);
      var rc := RecordLines(s);
      var cl := ColumnLines(s.exitColumns);
      var ll := LadderLines(s.hiddenLadderPositions);
      SnapshotHeadHasNoRows(s);
      RecordsHaveNoRows(s);
      ColumnsAndLaddersHaveNoRows(s);
      NoRowsAppend(rc, cl + ll);
      NoRowsAppend(hs, rc + (cl + ll));
      NoRowsAppend(hd, hs + (rc + (cl + ll)));
      assert hs + rc + cl + ll == hs + (rc + (cl + ll));
    } else {
      assert LinesBeforeRows(level, score, lives, snapshot) == hd + [];
    }
  }

  /** Each row without its trailing Empty tiles. */
  function TrimmedRows(rows: seq<seq<Tile>>): (r: seq<seq<Tile>>)
    ensures |r| == |rows| && forall i :: 0 <= i < |rows| ==> r[i] == DropTrailingEmpty(rows[i])
  {
    seq(|rows|, i requires 0 <= i < |rows| => DropTrailingEmpty(rows[i]))
  }

  /** Read as written, a tile row line appends the row without its trailing
      Empty tiles and changes nothing else. */
  lemma RowLineAsWritten(acc: Acc, row: seq<Tile>)
    ensures AbsorbAsWritten(acc, RowLine(row)) == acc.(tileRows := acc.tileRows + [DropTrailingEmpty(row)])
  {
    SavedRowLosesTrailingEmpty(acc, row);
    AbsorbKeepsRowsWhole(acc, RowLine(row));
    AbsorbRowLine(acc, row);
  }

  lemma {:induction false} AsWrittenIsFold(acc: Acc, ls: seq<string>)
    ensures AbsorbAllAsWritten(acc, ls) == FoldLines(AbsorbAsWritten, acc, ls)
    decreases |ls|
  {
    if |ls| > 0 {
      AsWrittenIsFold(AbsorbAsWritten(acc, ls[0]), ls[1..]);
    }
  }

  lemma RowsAsWritten(acc: Acc, rows: seq<seq<Tile>>)
    ensures AbsorbAllAsWritten(acc, RowLines(rows)) == acc.(tileRows := acc.tileRows + TrimmedRows(rows))
  {
    var ls := RowLines(rows);
    var trimmed := TrimmedRows(rows);
    forall i, a | 0 <= i < |ls| ensures AbsorbAsWritten(a, ls[i]) == AddRow(a, trimmed[i]) {
      RowLineAsWritten(a, rows[i]);
    }
    AsWrittenIsFold(acc, ls);
    FoldEach(AbsorbAsWritten, AddRow, acc, ls, trimmed);
    AddRows(acc, trimmed);
  }

  /** The snapshot with every tile row cut after its last non-Empty tile. */
  function RowsTrimmed(snapshot: Option<Snapshot>): (r: Option<Snapshot>)
    ensures r.Some? <==> snapshot.Some?
  {
    if snapshot.Some? then Some(snapshot.value.(tiles := TrimmedRows(snapshot.value.tiles))) else None
  }

  /** What `serialize` writes, `parse_save` as written reads back whole but
      for the trailing Empty tiles of each tile row. */
  lemma SaveRoundTripAsWritten(level: nat, score: nat, lives: nat, snapshot: Option<Snapshot>)
    requires level <= USIZE_MAX && score <= U32_MAX && lives <= U32_MAX
    requires snapshot.Some? ==> SnapshotFits(snapshot.value)
    ensures ParseSaveTextAsWritten(SaveText(level, score, lives, snapshot))
         == Some(SaveData(level, score, lives, RowsTrimmed(snapshot)))
  {
    SaveTextLines(level, score, lives, snapshot);
    RowsComeLast(level, score, lives, snapshot);
    NoRowsBeforeRows(level, score, lives, snapshot);
    var pre := LinesBeforeRows(level, score, lives, snapshot);
    AsWrittenAgreesOffRows(Start, pre);
    AbsorbSaveLines(level, score, lives, snapshot);
    var a := AbsorbAll(Start, pre);
    if snapshot.Some? {
      var s := snapshot.value;
      var rl := RowLines(s.tiles);
      AbsorbAllAppend(Start, pre, rl);
      AsWrittenAppend(Start, pre, rl);
      AbsorbRows(a, s.tiles);
      RowsAsWritten(a, s.tiles);
      var h := HeaderRead(level, score, lives);
      assert a.tileRows + s.tiles == SnapshotRead(h, s).tileRows == s.tiles;
      assert |a.tileRows| == 0;
      var t := s.(tiles := TrimmedRows(s.tiles));
      assert a.(tileRows := a.tileRows + TrimmedRows(s.tiles)) == SnapshotRead(h, t);
      FinishSnapshot(level, score, lives, t);
    } else {
      assert SaveLines(level, score, lives, snapshot) == pre + [];
      assert pre + [] == pre;
    }
  }

  /** A row that does not end in Empty is left whole by the cut. */
  lemma EndsSolidIsKept(rows: seq<seq<Tile>>)
    requires forall i :: 0 <= i < |rows| ==> |rows[i]| == 0 || rows[i][|rows[i]| - 1] != Empty
    ensures TrimmedRows(rows) == rows
  {
  }

  /** When no tile row ends in Empty, `parse_save` as written reads back
      exactly what `serialize` wrote, as `Absorb` does. */
  lemma SaveRoundTripWhenRowsEndSolid(level: nat, score: nat, lives: nat, snapshot: Option<Snapshot>)
    requires level <= USIZE_MAX && score <= U32_MAX && lives <= U32_MAX
    requires snapshot.Some? ==> SnapshotFits(snapshot.value)
    requires snapshot.Some? ==> forall i :: 0 <= i < |snapshot.value.tiles| ==>
               |snapshot.value.tiles[i]| == 0 || snapshot.value.tiles[i][|snapshot.value.tiles[i]| - 1] != Empty
    ensures ParseSaveTextAsWritten(SaveText(level, score, lives, snapshot)) == Some(SaveData(level, score, lives, snapshot))
    ensures ParseSaveTextAsWritten(SaveText(level, score, lives, snapshot)) == ParseSaveText(SaveText(level, score, lives, snapshot))
  {
    SaveRoundTripAsWritten(level, score, lives, snapshot);
    SaveRoundTrip(level, score, lives, snapshot);
    if snapshot.Some? {
      EndsSolidIsKept(snapshot.value.tiles);
      assert snapshot.value.(tiles := snapshot.value.tiles) == snapshot.value;
    }
  }

  /** A world whose tile rows do not end in Empty, saved and loaded by
      `parse_save` as written, is the world it was, but for the player
      revived and the hole grid rebuilt. */
  lemma ResumeFromSaveAsWritten(f: WorldFields, level: nat, score: nat, lives: nat)
    requires level <= USIZE_MAX && score <= U32_MAX && lives <= U32_MAX
    requires SnapshotFits(CaptureSnapshot(f))
    requires forall i :: 0 <= i < |f.tiles| ==> |f.tiles[i]| == 0 || f.tiles[i][|f.tiles[i]| - 1] != Empty
    ensures var d := ParseSaveTextAsWritten(SaveText(level, score, lives, Some(CaptureSnapshot(f))));
      d.Some? && d.value.snapshot.Some?
      && Restored(f, d.value.snapshot.value)
         == f.(player := f.player.(alive := true), holeGrid := Timers.HoleGridOf(f.holes, f.width, f.height))
  {
    SaveRoundTripWhenRowsEndSolid(level, score, lives, Some(CaptureSnapshot(f)));
    RestoreOfCapture(f);
  }
}
