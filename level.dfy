/** Single-level files: a `# name` line, an optional `@ x,y ...` line of
    extra hidden ladders, then map rows. */
module Level {
  import opened Common
  import opened Text
  import opened Tiles
  import opened Entity
  import opened World
  import Physics

  /** `LevelDef`: a level as read from text. */
  datatype LevelDef = LevelDef(name: string, rows: seq<string>, extraHiddenLadders: seq<(nat, nat)>)

  /** The name a level without a name line gets. */
  const UNNAMED: string := "Unnamed Node"

  // ---------------------------------------------------------------------
  // Name lines
  // ---------------------------------------------------------------------

  /** `char::is_alphabetic`, for the ASCII range. */
  predicate IsLetter(c: char)
  {
    'a' <= c <= 'z' || 'A' <= c <= 'Z'
  }

  predicate HasLetter(s: string)
  {
    exists i :: 0 <= i < |s| && IsLetter(s[i])
  }

  /** The characters of the map legend: walls, ladders, ropes, gold, the
      spawn markers, exit and hidden ladders, trap bricks and empty cells. */
  predicate IsMapChar(c: char)
  {
    c in " #=H-$PE^~T"
  }

  predicate AllMapChars(s: string)
  {
    forall i :: 0 <= i < |s| ==> IsMapChar(s[i])
  }

  /** `is_name_line` as written: the text after the leading '#' holds a
      letter. */
  predicate IsNameLineAsWritten(line: string)
    requires |line| >= 1
    ensures IsNameLineAsWritten(line) <==> exists i :: 1 <= i < |line| && IsLetter(line[i])
  {
    HasLetter(line[1..])
  }

  /** The test `is_name_line`'s own comment describes: the text after the
      '#' holds a letter, and it is not a map row, which is made only of
      legend characters (some of which, H, T, P and E, are letters). */
  predicate IsNameLine(line: string)
    requires |line| >= 1
    ensures IsNameLine(line) <==>
      IsNameLineAsWritten(line) && exists i :: 1 <= i < |line| && !IsMapChar(line[i])
  {
    HasLetter(line[1..]) && !AllMapChars(line[1..])
  }

  // ---------------------------------------------------------------------
  // Single-level files
  // ---------------------------------------------------------------------

  /** `parse_level_file`'s accumulators while it walks the lines. */
  datatype Scan = Scan(name: string, rows: seq<string>, ladders: seq<(nat, nat)>)

  /** An `x,y` word of the `@` line, when it has exactly two comma-separated
      fields and both parse as `usize`. */
  function PairOf(word: string): Option<(nat, nat)>
  {
    var parts := Split(word, ',');
    if |parts| != 2 then None
    else
      var x := ParseUint(parts[0], USIZE_MAX);
      var y := ParseUint(parts[1], USIZE_MAX);
      if x.Some? && y.Some? then Some((x.value, y.value)) else None
  }

  /** The pairs of the `@` line's words, in order; malformed words are
      skipped. */
  function LadderPairs(words: seq<string>): (r: seq<(nat, nat)>)
    ensures |r| <= |words|
  {
    if |words| == 0 then []
    else
      var prev := LadderPairs(words[..|words| - 1]);
      match PairOf(words[|words| - 1])
      case Some(p) => prev + [p]
      case None => prev
  }

  lemma LadderPairsStep(words: seq<string>, j: nat)
    requires j < |words|
    ensures LadderPairs(words[..j + 1]) == LadderPairs(words[..j]) + (if PairOf(words[j]).Some? then [PairOf(words[j]).value] else [])
  {
    assert words[..j + 1][..j] == words[..j];
  }

  /** One line of `parse_level_file`: the first name line sets the name, an
      `@ ` line adds hidden ladders, anything else is a map row.
      `asWritten` selects the name test as written instead of the intended
      one. */
  function ScanStep(s: Scan, line: string, asWritten: bool): (r: Scan)
    ensures s.name != [] ==> r.name == s.name
    ensures r.name != s.name ==> |line| >= 1 && line[0] == '#' && r == s.(name := Trim(line[1..]))
    ensures r.rows == s.rows || r.rows == s.rows + [line]
    ensures s.ladders <= r.ladders
    ensures (|line| == 0 || line[0] !in "#@") ==> r == s.(rows := s.rows + [line])
  {
    if |line| >= 1 && line[0] == '#' && s.name == []
       && (if asWritten then IsNameLineAsWritten(line) else IsNameLine(line)) then
      s.(name := Trim(line[1..]))
    else if "@ " <= line then
      s.(ladders := s.ladders + LadderPairs(SplitWhitespace(line[2..])))
    else
      s.(rows := s.rows + [line])
  }

  /** One line of `parse_level_file` with the intended name test: a '#'
      line made only of legend characters is always a map row. */
  function ScanLine(s: Scan, line: string): (r: Scan)
    ensures |line| >= 1 && line[0] == '#' && AllMapChars(line[1..]) ==> r == s.(rows := s.rows + [line])
    ensures r.name != s.name ==> s.name == [] && |line| >= 1 && line[0] == '#' && IsNameLine(line)
  {
    ScanStep(s, line, false)
  }

  /** One line of `parse_level_file` with the name test as written. */
  function ScanLineAsWritten(s: Scan, line: string): Scan
  {
    ScanStep(s, line, true)
  }

  /** The accumulators after the lines `ls`. */
  function ScanLines(ls: seq<string>): Scan
  {
    if |ls| == 0 then Scan([], [], [])
    else ScanLine(ScanLines(ls[..|ls| - 1]), ls[|ls| - 1])
  }

  /** The accumulators after the lines `ls`, with the name test as
      written. */
  function ScanLinesAsWritten(ls: seq<string>): Scan
  {
    if |ls| == 0 then Scan([], [], [])
    else ScanLineAsWritten(ScanLinesAsWritten(ls[..|ls| - 1]), ls[|ls| - 1])
  }

  lemma ScanLinesStep(ls: seq<string>, i: nat)
    requires i < |ls|
    ensures ScanLines(ls[..i + 1]) == ScanLine(ScanLines(ls[..i]), ls[i])
  {
    assert ls[..i + 1][..i] == ls[..i];
  }

  /** A row `trim` reduces to nothing. */
  predicate Blank(row: string)
  {
    Trim(row) == []
  }

  /** `rows` without its trailing blank rows. */
  function DropBlankTail(rows: seq<string>): (r: seq<string>)
    ensures r <= rows
    ensures |r| > 0 ==> !Blank(r[|r| - 1])
    ensures forall i :: |r| <= i < |rows| ==> Blank(rows[i])
  {
    if |rows| > 0 && Blank(rows[|rows| - 1]) then DropBlankTail(rows[..|rows| - 1]) else rows
  }

  /** The greatest byte length among `rows`, 0 for no rows. */
  function MaxByteLen(rows: seq<string>): (m: nat)
    ensures forall i :: 0 <= i < |rows| ==> ByteLen(rows[i]) <= m
    ensures |rows| > 0 ==> exists i :: 0 <= i < |rows| && ByteLen(rows[i]) == m
    ensures |rows| == 0 ==> m == 0
  {
    if |rows| == 0 then 0
    else
      var m := MaxByteLen(rows[..|rows| - 1]);
      var b := ByteLen(rows[|rows| - 1]);
      assert forall i :: 0 <= i < |rows| - 1 ==> rows[i] == rows[..|rows| - 1][i];
      if b > m then b else m
  }

  lemma MaxByteLenStep(rows: seq<string>, k: nat)
    requires k < |rows|
    ensures MaxByteLen(rows[..k + 1]) == if ByteLen(rows[k]) > MaxByteLen(rows[..k]) then ByteLen(rows[k]) else MaxByteLen(rows[..k])
  {
    assert rows[..k + 1][..k] == rows[..k];
  }

  function Spaces(n: nat): (s: string)
    ensures |s| == n && forall i :: 0 <= i < n ==> s[i] == ' '
  {
    seq(n, _ => ' ')
  }

  /** A row extended with spaces to `width` bytes; a row that long already
      is kept. */
  function PadRow(row: string, width: nat): (r: string)
    ensures row <= r && forall i :: |row| <= i < |r| ==> r[i] == ' '
    ensures ByteLen(row) <= width ==> ByteLen(r) == width
    ensures ByteLen(row) >= width ==> r == row
  {
    if ByteLen(row) < width then
      var r := row + Spaces(width - ByteLen(row));
      assert ByteLen(r) == width by {
        ByteLenAppend(row, Spaces(width - ByteLen(row)));
        SpacesByteLen(width - ByteLen(row));
      }
      r
    else row
  }

  function PadRows(rows: seq<string>, width: nat): (r: seq<string>)
    ensures |r| == |rows| && forall i :: 0 <= i < |rows| ==> r[i] == PadRow(rows[i], width)
  {
    seq(|rows|, i requires 0 <= i < |rows| => PadRow(rows[i], width))
  }

  /** The level `parse_level_file` reads from `content`: None when no
      non-blank row remains. */
  function ParseLevel(content: string): (r: Option<LevelDef>)
    ensures r.Some? ==> r.value.name != [] && |r.value.rows| > 0
    ensures r.Some? ==> r.value.extraHiddenLadders == ScanLines(Lines(content)).ladders
  {
    LevelOfScan(ScanLines(Lines(content)))
  }

  /** `parse_level_file` as written, with `is_name_line` as the source has
      it. */
  function ParseLevelAsWritten(content: string): Option<LevelDef>
  {
    LevelOfScan(ScanLinesAsWritten(Lines(content)))
  }

  /** What `parse_level_file` makes of its accumulators once the lines are
      read. */
  function LevelOfScan(s: Scan): Option<LevelDef>
  {
    var rows := DropBlankTail(s.rows);
    if |rows| == 0 then None
    else Some(LevelDef(if s.name == [] then UNNAMED else s.name, PadRows(rows, MaxByteLen(rows)), s.ladders))
  }

  /** The hidden-ladder pairs of the text after `@ `. */
  method ReadLadderPairs(text: string) returns (found: seq<(nat, nat)>)
    ensures found == LadderPairs(SplitWhitespace(text))
  {
    var words := SplitWhitespace(text);
    found := [];
    var j := 0;
    while j < |words|
      invariant j <= |words|
      invariant found == LadderPairs(words[..j])
    {
      LadderPairsStep(words, j);
      var parts := Split(words[j], ',');
      if |parts| == 2 {
        var x := ParseUint(parts[0], USIZE_MAX);
        var y := ParseUint(parts[1], USIZE_MAX);
        if x.Some? && y.Some? {
          found := found + [(x.value, y.value)];
        }
      }
      j := j + 1;
    }
    assert words[..j] == words;
  }

  /** The line loop of `parse_level_file`. */
  method ScanLevelLines(lines: seq<string>) returns (s: Scan)
    ensures s == ScanLines(lines)
  {
    var name: string := [];
    var rows: seq<string> := [];
    var ladders: seq<(nat, nat)> := [];
    var i := 0;
    while i < |lines|
      invariant i <= |lines|
      invariant Scan(name, rows, ladders) == ScanLines(lines[..i])
    {
      ScanLinesStep(lines, i);
      var line := lines[i];
      if |line| >= 1 && line[0] == '#' && name == [] && IsNameLine(line) {
        name := Trim(line[1..]);
      } else if "@ " <= line {
        var found := ReadLadderPairs(line[2..]);
        ladders := ladders + found;
      } else {
        rows := rows + [line];
      }
      i := i + 1;
    }
    assert lines[..i] == lines;
    s := Scan(name, rows, ladders);
  }

  /** Pop trailing blank rows. */
  method PopBlankRows(scanned: seq<string>) returns (rows: seq<string>)
    ensures rows == DropBlankTail(scanned)
  {
    rows := scanned;
    while |rows| > 0 && Blank(rows[|rows| - 1])
      invariant DropBlankTail(rows) == DropBlankTail(scanned)
    {
      rows := rows[..|rows| - 1];
    }
  }

  /** The widest row's byte length. */
  method WidestRow(rows: seq<string>) returns (maxWidth: nat)
    ensures maxWidth == MaxByteLen(rows)
  {
    maxWidth := 0;
    var k := 0;
    while k < |rows|
      invariant k <= |rows|
      invariant maxWidth == MaxByteLen(rows[..k])
    {
      MaxByteLenStep(rows, k);
      var b := ByteLen(rows[k]);
      if b > maxWidth {
        maxWidth := b;
      }
      k := k + 1;
    }
    assert rows[..k] == rows;
  }

  /** Extend every row shorter than `maxWidth` bytes with spaces, in
      place. */
  method PadAll(kept: seq<string>, maxWidth: nat) returns (rows: seq<string>)
    ensures rows == PadRows(kept, maxWidth)
  {
    rows := kept;
    var k := 0;
    while k < |rows|
      invariant k <= |rows| == |kept|
      invariant forall j :: 0 <= j < k ==> rows[j] == PadRow(kept[j], maxWidth)
      invariant forall j :: k <= j < |rows| ==> rows[j] == kept[j]
    {
      var b := ByteLen(rows[k]);
      if b < maxWidth {
        rows := rows[k := rows[k] + Spaces(maxWidth - b)];
      }
      k := k + 1;
    }
  }

  /** `parse_level_file`. */
  method ParseLevelFile(content: string) returns (r: Option<LevelDef>)
    ensures r == ParseLevel(content)
  {
    var s := ScanLevelLines(Lines(content));
    var rows := PopBlankRows(s.rows);
    if |rows| == 0 {
      return None;
    }
    var maxWidth := WidestRow(rows);
    rows := PadAll(rows, maxWidth);
    var name := s.name;
    if name == [] {
      name := UNNAMED;
    }
    r := Some(LevelDef(name, rows, s.ladders));
  }

  // ---------------------------------------------------------------------
  // What parse_level_file promises
  // ---------------------------------------------------------------------

  /** A line the first-name rule takes as the level's name. */
  predicate NameCandidate(line: string)
  {
    |line| >= 1 && line[0] == '#' && IsNameLine(line)
  }

  /** A name line's name is never empty: it holds a letter, and trimming
      cuts only whitespace. */
  lemma NameIsNotBlank(line: string)
    requires NameCandidate(line)
    ensures Trim(line[1..]) != []
  {
    var t := line[1..];
    var i :| 0 <= i < |t| && IsLetter(t[i]);
    var te := TrimEnd(t);
    TrimEndCutsSpace(t);
    TrimStartCutsSpace(te);
    assert !IsSpace(t[i]);
    assert i < |te| && te[i] == t[i];
  }

  lemma {:induction false} ScanNoName(ls: seq<string>)
    requires forall i :: 0 <= i < |ls| ==> !NameCandidate(ls[i])
    ensures ScanLines(ls).name == []
    decreases |ls|
  {
    if |ls| > 0 {
      ScanNoName(ls[..|ls| - 1]);
    }
  }

  /** The first name line names the level; later name lines are rows. */
  lemma {:induction false} ScanNameAt(ls: seq<string>, i: nat)
    requires i < |ls| && NameCandidate(ls[i])
    requires forall j :: 0 <= j < i ==> !NameCandidate(ls[j])
    ensures ScanLines(ls).name == Trim(ls[i][1..])
    decreases |ls|
  {
    var n := |ls| - 1;
    if i == n {
      ScanNoName(ls[..n]);
    } else {
      ScanNameAt(ls[..n], i);
      NameIsNotBlank(ls[i]);
    }
  }

  /** The level's name is the text after the '#' of its first name line,
      trimmed; without a name line it is "Unnamed Node". */
  lemma LevelName(ls: seq<string>)
    requires LevelOfScan(ScanLines(ls)).Some?
    ensures (forall i :: 0 <= i < |ls| ==> !NameCandidate(ls[i])) ==> LevelOfScan(ScanLines(ls)).value.name == UNNAMED
    ensures forall i :: 0 <= i < |ls| && NameCandidate(ls[i]) && (forall j :: 0 <= j < i ==> !NameCandidate(ls[j])) ==>
      LevelOfScan(ScanLines(ls)).value.name == Trim(ls[i][1..])
  {
    if forall i :: 0 <= i < |ls| ==> !NameCandidate(ls[i]) {
      ScanNoName(ls);
    }
    forall i | 0 <= i < |ls| && NameCandidate(ls[i]) && (forall j :: 0 <= j < i ==> !NameCandidate(ls[j]))
      ensures LevelOfScan(ScanLines(ls)).value.name == Trim(ls[i][1..])
    {
      ScanNameAt(ls, i);
      NameIsNotBlank(ls[i]);
    }
  }

  /** A file yields no level exactly when every map row is blank. Otherwise
      the rows are the map rows up to the last non-blank one, each extended
      with spaces to the byte length of the longest of them, and the extra
      hidden ladders are those of the `@` lines, in order. */
  lemma LevelRows(s: Scan)
    ensures LevelOfScan(s).None? <==> forall i :: 0 <= i < |s.rows| ==> Blank(s.rows[i])
    ensures var kept := DropBlankTail(s.rows);
      LevelOfScan(s).Some? ==>
        var d := LevelOfScan(s).value;
        d.extraHiddenLadders == s.ladders && |d.rows| == |kept| > 0 && !Blank(kept[|kept| - 1])
        && forall i :: 0 <= i < |kept| ==>
             kept[i] <= d.rows[i] && ByteLen(d.rows[i]) == MaxByteLen(kept)
             && forall k :: |kept[i]| <= k < |d.rows[i]| ==> d.rows[i][k] == ' '
  {
    NoLevelIffBlank(s);
    RowsPadded(s);
  }

  lemma NoLevelIffBlank(s: Scan)
    ensures LevelOfScan(s).None? <==> forall i :: 0 <= i < |s.rows| ==> Blank(s.rows[i])
  {
    var kept := DropBlankTail(s.rows);
    if |kept| > 0 {
      assert kept[|kept| - 1] == s.rows[|kept| - 1];
    }
  }

  lemma RowsPadded(s: Scan)
    ensures var kept := DropBlankTail(s.rows);
      LevelOfScan(s).Some? ==>
        var d := LevelOfScan(s).value;
        d.extraHiddenLadders == s.ladders && |d.rows| == |kept| > 0 && !Blank(kept[|kept| - 1])
        && forall i :: 0 <= i < |kept| ==>
             kept[i] <= d.rows[i] && ByteLen(d.rows[i]) == MaxByteLen(kept)
             && forall k :: |kept[i]| <= k < |d.rows[i]| ==> d.rows[i][k] == ' '
  {
    var kept := DropBlankTail(s.rows);
    if |kept| > 0 {
      var width := MaxByteLen(kept);
      var d := LevelOfScan(s).value;
      assert d.rows == PadRows(kept, width);
      forall i | 0 <= i < |kept|
        ensures kept[i] <= d.rows[i] && ByteLen(d.rows[i]) == width
          && forall k :: |kept[i]| <= k < |d.rows[i]| ==> d.rows[i][k] == ' '
      {
        assert d.rows[i] == PadRow(kept[i], width);
      }
    }
  }

  /** A '#' line the two name tests judge differently: a map row made of
      legend characters that holds a letter (H, T, P or E). */
  predicate Misjudged(line: string)
  {
    |line| >= 1 && line[0] == '#' && IsNameLineAsWritten(line) && !IsNameLine(line)
  }

  /** On lines none of which the two tests judge differently, the scan as
      written and the intended scan agree. */
  lemma {:induction false} ScanAsWrittenAgrees(ls: seq<string>)
    requires forall i :: 0 <= i < |ls| ==> !Misjudged(ls[i])
    ensures ScanLinesAsWritten(ls) == ScanLines(ls)
    decreases |ls|
  {
    if |ls| > 0 {
      var n := |ls| - 1;
      ScanAsWrittenAgrees(ls[..n]);
      assert !Misjudged(ls[n]);
    }
  }

  /** So `parse_level_file` as written reads the same level as the intended
      reader from every file without such a row: the discrepancy is
      confined to the rows `Misjudged` picks out. */
  lemma ParseAsWrittenAgrees(content: string)
    requires forall i :: 0 <= i < |Lines(content)| ==> !Misjudged(Lines(content)[i])
    ensures ParseLevelAsWritten(content) == ParseLevel(content)
  {
    ScanAsWrittenAgrees(Lines(content));
  }

  /** Once a name line has named the level, the name test is never asked
      again: on lines that open with a name line, the scan as written and
      the intended scan agree, whatever '#' rows follow. */
  lemma {:induction false} ScanAgreesAfterName(ls: seq<string>)
    requires |ls| > 0 && NameCandidate(ls[0])
    ensures ScanLinesAsWritten(ls) == ScanLines(ls)
    ensures ScanLines(ls).name != []
    decreases |ls|
  {
    var n := |ls| - 1;
    assert ScanLines(ls) == ScanLine(ScanLines(ls[..n]), ls[n]);
    assert ScanLinesAsWritten(ls) == ScanLineAsWritten(ScanLinesAsWritten(ls[..n]), ls[n]);
    if n == 0 {
      assert ls[..0] == [];
      NameLineAgrees(ls[0]);
    } else {
      assert ls[..n][0] == ls[0];
      ScanAgreesAfterName(ls[..n]);
      NamedLineAgrees(ScanLines(ls[..n]), ls[n]);
    }
  }

  /** Both tests take a name line for the name, which is not blank. */
  lemma NameLineAgrees(line: string)
    requires NameCandidate(line)
    ensures ScanLineAsWritten(Scan([], [], []), line) == ScanLine(Scan([], [], []), line)
    ensures ScanLine(Scan([], [], []), line).name != []
  {
    NameIsNotBlank(line);
  }

  /** Once the level is named, a line is read the same under both tests,
      and the name stays. */
  lemma NamedLineAgrees(s: Scan, line: string)
    requires s.name != []
    ensures ScanLineAsWritten(s, line) == ScanLine(s, line)
    ensures ScanLine(s, line).name == s.name
  {
  }

  /** So `parse_level_file` as written reads the intended level from every
      file whose first line is a name line. */
  lemma ParseAgreesAfterName(content: string)
    requires |Lines(content)| > 0 && NameCandidate(Lines(content)[0])
    ensures ParseLevelAsWritten(content) == ParseLevel(content)
  {
    ScanAgreesAfterName(Lines(content));
  }

  /** The row `#  H  #` (a brick, a ladder, a brick) is a map row, yet the
      name test as written accepts it and the intended test does not. */
  lemma LadderRowIsNameAsWritten(row: string)
    requires row == "#  H  #"
    ensures AllMapChars(row) && IsNameLineAsWritten(row) && !IsNameLine(row)
  {
    assert IsLetter(row[1..][2]);
  }

  lemma LadderRowTrimmed(row: string)
    requires row == "#  H  #"
    ensures Trim(row[1..]) == "H  #"
  {
    var t := row[1..];
    assert TrimEnd(t) == t;
    assert t[1..][1..] == "H  #";
    assert TrimStart(t) == TrimStart(t[1..]) == TrimStart("H  #") == "H  #";
  }

  /** The name test as written takes a map row that starts with a brick
      and holds a ladder for a name, so a file without a name line loses
      that row to the name. */
  lemma LadderRowTakenForName(row: string)
    requires row == "#  H  #"
    ensures ScanStep(Scan([], [], []), row, true) == Scan("H  #", [], [])
  {
    LadderRowIsNameAsWritten(row);
    LadderRowTrimmed(row);
  }

  /** The intended test keeps the same row as a map row. */
  lemma LadderRowKept(row: string)
    requires row == "#  H  #"
    ensures ScanLine(Scan([], [], []), row) == Scan([], [row], [])
  {
    LadderRowIsNameAsWritten(row);
    assert !("@ " <= row) by { assert row[0] != '@'; }
  }

  /** With the intended test, a map row that starts with a brick is always
      kept as a row. */
  lemma MapRowStaysRow(s: Scan, row: string)
    requires |row| >= 1 && row[0] == '#' && AllMapChars(row[1..])
    ensures ScanLine(s, row) == s.(rows := s.rows + [row])
  {
    assert !("@ " <= row) by { assert row[0] != '@'; }
  }

  /** The word `level_to_text` writes for a hidden ladder. */
  function PairWord(p: (nat, nat)): string
  {
    ShowNat(p.0) + "," + ShowNat(p.1)
  }

  function PairWords(ps: seq<(nat, nat)>): (r: seq<string>)
    ensures |r| == |ps| && forall i :: 0 <= i < |ps| ==> r[i] == PairWord(ps[i])
  {
    seq(|ps|, i requires 0 <= i < |ps| => PairWord(ps[i]))
  }

  predicate PairFits(p: (nat, nat))
  {
    p.0 <= USIZE_MAX && p.1 <= USIZE_MAX
  }

  lemma PairWordReadsBack(p: (nat, nat))
    requires PairFits(p)
    ensures PairOf(PairWord(p)) == Some(p)
  {
    ShowNatIsPlain(p.0);
    ShowNatIsPlain(p.1);
    assert PairWord(p) == Join([ShowNat(p.0), ShowNat(p.1)], ',');
    SplitJoin([ShowNat(p.0), ShowNat(p.1)], ',');
    ParseShowNat(p.0, USIZE_MAX);
    ParseShowNat(p.1, USIZE_MAX);
  }

  lemma SplitLast<T>(s: seq<T>)
    requires |s| > 0
    ensures s[..|s| - 1] + [s[|s| - 1]] == s
  {
  }

  lemma PairWordsPrefix(ps: seq<(nat, nat)>, n: nat)
    requires n <= |ps|
    ensures PairWords(ps)[..n] == PairWords(ps[..n])
  {
  }

  lemma {:induction false} LadderPairsOfWords(ps: seq<(nat, nat)>)
    requires forall i :: 0 <= i < |ps| ==> PairFits(ps[i])
    ensures LadderPairs(PairWords(ps)) == ps
    decreases |ps|
  {
    if |ps| > 0 {
      var n := |ps| - 1;
      var ws := PairWords(ps);
      PairWordsPrefix(ps, n);
      LadderPairsOfWords(ps[..n]);
      PairWordReadsBack(ps[n]);
      LadderPairsStep(ws, n);
      assert ws[..n + 1] == ws;
      SplitLast(ps);
    }
  }

  lemma PairWordIsWord(p: (nat, nat))
    ensures |PairWord(p)| > 0 && forall j :: 0 <= j < |PairWord(p)| ==> !IsSpace(PairWord(p)[j])
  {
    ShowNatIsPlain(p.0);
    ShowNatIsPlain(p.1);
  }

  /** An `@` line of space-separated `x,y` words gives back its pairs. */
  lemma LadderTextReadsBack(ps: seq<(nat, nat)>)
    requires forall i :: 0 <= i < |ps| ==> PairFits(ps[i])
    ensures LadderPairs(SplitWhitespace(Join(PairWords(ps), ' '))) == ps
  {
    var ws := PairWords(ps);
    forall i | 0 <= i < |ws|
      ensures |ws[i]| > 0 && forall j :: 0 <= j < |ws[i]| ==> !IsSpace(ws[i][j])
    {
      PairWordIsWord(ps[i]);
    }
    SplitWhitespaceJoin(ws);
    LadderPairsOfWords(ps);
  }
}
