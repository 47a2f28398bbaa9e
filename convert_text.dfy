/** The text writer of the converter, `level_to_text`, and what the game's
    single-level reader makes of the text it writes. */
module ConvertText {
  import opened Common
  import opened Text
  import opened ConvertLevels
  import Level

  /** The longest prefix of `s` made of decimal digits (what `\d+` takes
      after the literal). */
  function DigitRun(s: string): (r: string)
    ensures r <= s && AllDigits(r)
    ensures |r| < |s| ==> !IsDigit(s[|r|])
  {
    if |s| > 0 && IsDigit(s[0]) then [s[0]] + DigitRun(s[1..]) else []
  }

  /** The readable name `level_to_text` writes: "Test Level" for the array
      `test`, "Level N" for an array whose name starts with `level` and
      digits (N the number those digits spell, without leading zeros),
      and the array's own name otherwise. */
  function DisplayName(name: string): (dn: string)
    ensures name == "test" ==> dn == "Test Level"
    ensures name != "test" && !("level" <= name) ==> dn == name
  {
    if name == "test" then "Test Level"
    else if "level" <= name && |DigitRun(name[5..])| > 0 then "Level " + ShowNat(DigitsValue(DigitRun(name[5..])))
    else name
  }

  /** The number in a "Level N" name is the one the array name's digits
      spell. */
  lemma DisplayNameNumber(name: string, digits: string, rest: string)
    requires |name| >= 5 && name[..5] == "level" && name[5..] == digits + rest && |digits| > 0 && AllDigits(digits)
    requires |rest| > 0 ==> !IsDigit(rest[0])
    ensures DisplayName(name) == "Level " + ShowNat(DigitsValue(digits))
  {
    assert name != "test" by { assert |name| != 4; }
    assert "level" <= name;
    DigitRunOf(digits, rest);
    assert DigitRun(name[5..]) == digits;
  }

  lemma {:induction false} DigitRunOf(digits: string, rest: string)
    requires AllDigits(digits)
    requires |rest| > 0 ==> !IsDigit(rest[0])
    ensures DigitRun(digits + rest) == digits
    decreases |digits|
  {
    if |digits| > 0 {
      assert (digits + rest)[1..] == digits[1..] + rest;
      DigitRunOf(digits[1..], rest);
    } else {
      assert digits + rest == rest;
    }
  }

  /** The lines `level_to_text` writes: the name line, an `@` line of the
      overlaps only when there are some, then the rows. */
  function TextLines(d: LevelData): (ls: seq<string>)
    ensures |ls| == 1 + (if |d.overlaps| > 0 then 1 else 0) + |d.rows|
    ensures ls[0] == "# " + DisplayName(d.name) && ls[|ls| - |d.rows|..] == d.rows
  {
    ["# " + DisplayName(d.name)] + (if |d.overlaps| > 0 then ["@ " + Join(Level.PairWords(d.overlaps), ' ')] else []) + d.rows
  }

  /** `level_to_text`: the lines joined by newlines, with a final newline.
      The unused index parameter is not modelled. */
  method LevelToText(d: LevelData) returns (text: string)
    ensures text == Unlines(TextLines(d))
  {
    var lines := ["# " + DisplayName(d.name)];
    if |d.overlaps| > 0 {
      lines := lines + ["@ " + Join(Level.PairWords(d.overlaps), ' ')];
    }
    var i := 0;
    while i < |d.rows|
      invariant i <= |d.rows|
      invariant lines == TextLines(d)[..|TextLines(d)| - |d.rows| + i]
    {
      lines := lines + [d.rows[i]];
      i := i + 1;
    }
    assert lines == TextLines(d);
    JoinLinesIsUnlines(lines);
    text := Join(lines, '\n') + "\n";
  }

  /** Joining lines with newlines and adding one more is writing each line
      followed by a newline. */
  lemma {:induction false} JoinLinesIsUnlines(ls: seq<string>)
    requires |ls| > 0
    ensures Join(ls, '\n') + "\n" == Unlines(ls)
    decreases |ls|
  {
    if |ls| > 1 {
      JoinLinesIsUnlines(ls[1..]);
    }
  }

  // ---------------------------------------------------------------------
  // Reading the text back
  // ---------------------------------------------------------------------

  /** A row of the converter's legend: tiles, 'P', 'E' and '~'. */
  predicate LegendRow(row: string)
  {
    forall i :: 0 <= i < |row| ==> row[i] in " #=H-T$PE~"
  }

  /** The lines before the rows: the name line and the optional `@` line. */
  function HeadLines(d: LevelData): seq<string>
  {
    ["# " + DisplayName(d.name)] + (if |d.overlaps| > 0 then ["@ " + Join(Level.PairWords(d.overlaps), ' ')] else [])
  }

  /** The reader takes the name line for the name... */
  lemma NameLineScan(dn: string)
    requires Level.NameCandidate("# " + dn)
    ensures Level.ScanLines(["# " + dn]) == Level.Scan(Trim(" " + dn), [], [])
  {
    var nameLine := "# " + dn;
    assert nameLine[1..] == " " + dn;
    ScanLinesSnoc([], nameLine);
    assert [] + [nameLine] == [nameLine];
  }

  /** ... and, once the name is set, the `@` line for the extra hidden
      ladders. */
  lemma AtLineScan(s: Level.Scan, ps: seq<(nat, nat)>)
    requires s.name != []
    requires forall i :: 0 <= i < |ps| ==> OnMap(ps[i])
    ensures Level.ScanLine(s, "@ " + Join(Level.PairWords(ps), ' ')) == s.(ladders := s.ladders + ps)
  {
    var atLine := "@ " + Join(Level.PairWords(ps), ' ');
    assert atLine[2..] == Join(Level.PairWords(ps), ' ');
    assert "@ " <= atLine;
    Level.LadderTextReadsBack(ps);
  }

  lemma ScanHead(d: LevelData)
    requires Level.NameCandidate("# " + DisplayName(d.name))
    requires forall i :: 0 <= i < |d.overlaps| ==> OnMap(d.overlaps[i])
    ensures Level.ScanLines(HeadLines(d)) == Level.Scan(Trim(" " + DisplayName(d.name)), [], d.overlaps)
  {
    var dn := DisplayName(d.name);
    NameLineScan(dn);
    if |d.overlaps| > 0 {
      var atLine := "@ " + Join(Level.PairWords(d.overlaps), ' ');
      assert HeadLines(d) == ["# " + dn] + [atLine];
      ScanLinesSnoc(["# " + dn], atLine);
      NameIsNotBlank(d);
      AtLineScan(Level.ScanLines(["# " + dn]), d.overlaps);
    } else {
      assert HeadLines(d) == ["# " + dn];
    }
  }

  /** Once the name is set, a legend row is a map row. */
  lemma RowKept(s: Level.Scan, row: string)
    requires s.name != [] && LegendRow(row)
    ensures Level.ScanLine(s, row) == s.(rows := s.rows + [row])
  {
    assert !("@ " <= row) by {
      if |row| >= 2 {
        assert row[0] in " #=H-T$PE~";
      }
    }
  }

  lemma ScanLinesSnoc(ls: seq<string>, line: string)
    ensures Level.ScanLines(ls + [line]) == Level.ScanLine(Level.ScanLines(ls), line)
  {
    assert (ls + [line])[..|ls|] == ls;
  }

  /** Every row after the head lines is kept as a map row, in order. */
  lemma {:induction false} ScanRows(head: seq<string>, name: string, ladders: seq<(nat, nat)>, rows: seq<string>, k: nat)
    requires Level.ScanLines(head) == Level.Scan(name, [], ladders) && name != []
    requires k <= |rows| && forall i :: 0 <= i < |rows| ==> LegendRow(rows[i])
    ensures Level.ScanLines(head + rows[..k]) == Level.Scan(name, rows[..k], ladders)
    decreases k
  {
    if k == 0 {
      assert head + rows[..0] == head;
    } else {
      ScanRows(head, name, ladders, rows, k - 1);
      var prefix := head + rows[..k - 1];
      SplitLast(rows[..k]);
      assert rows[..k][..k - 1] == rows[..k - 1];
      assert head + rows[..k] == prefix + [rows[k - 1]];
      ScanLinesSnoc(prefix, rows[k - 1]);
      RowKept(Level.ScanLines(prefix), rows[k - 1]);
    }
  }

  /** The text `level_to_text` writes, read by the game's single-level
      reader, gives the display name (trimmed), the rows as map rows and
      the overlaps as the extra hidden ladders, as long as the name line
      is one the reader takes for a name. */
  lemma TextReadsBack(d: LevelData)
    requires Level.NameCandidate("# " + DisplayName(d.name)) && PlainLine("# " + DisplayName(d.name))
    requires forall i :: 0 <= i < |d.rows| ==> LegendRow(d.rows[i])
    requires forall i :: 0 <= i < |d.overlaps| ==> OnMap(d.overlaps[i])
    ensures Level.ParseLevel(Unlines(TextLines(d))) == Level.LevelOfScan(Level.Scan(Trim(" " + DisplayName(d.name)), d.rows, d.overlaps))
  {
    var head := HeadLines(d);
    var ls := TextLines(d);
    assert ls == head + d.rows;
    TextLinesArePlain(d);
    LinesOfUnlines(ls);
    ScanHead(d);
    NameIsNotBlank(d);
    ScanRows(head, Trim(" " + DisplayName(d.name)), d.overlaps, d.rows, |d.rows|);
    assert d.rows[..|d.rows|] == d.rows;
  }

  /** Every line the converter writes is a plain line: the name line by
      assumption, the `@` line and the legend rows by construction. */
  lemma TextLinesArePlain(d: LevelData)
    requires PlainLine("# " + DisplayName(d.name))
    requires forall i :: 0 <= i < |d.rows| ==> LegendRow(d.rows[i])
    ensures forall i :: 0 <= i < |TextLines(d)| ==> PlainLine(TextLines(d)[i])
  {
    var head := HeadLines(d);
    var ls := TextLines(d);
    assert ls == head + d.rows;
    if |d.overlaps| > 0 {
      var atLine := "@ " + Join(Level.PairWords(d.overlaps), ' ');
      assert PlainLine(atLine) by { AtLinePlain(d.overlaps); }
    }
    forall i | 0 <= i < |ls|
      ensures PlainLine(ls[i])
    {
      if i >= |head| {
        assert ls[i] == d.rows[i - |head|];
        assert LegendRow(ls[i]);
      }
    }
  }

  /** `parse_level_file` as written reads the converter's text exactly as
      the intended reader does, whatever map rows follow: the name line
      comes first, so the name test is never asked about a row such as
      `#  H  #`. */
  lemma TextReadsBackAsWritten(d: LevelData)
    requires Level.NameCandidate("# " + DisplayName(d.name)) && PlainLine("# " + DisplayName(d.name))
    requires forall i :: 0 <= i < |d.rows| ==> LegendRow(d.rows[i])
    ensures Level.ParseLevelAsWritten(Unlines(TextLines(d))) == Level.ParseLevel(Unlines(TextLines(d)))
  {
    TextLinesArePlain(d);
    LinesOfUnlines(TextLines(d));
    Level.ParseAgreesAfterName(Unlines(TextLines(d)));
  }

  lemma NameIsNotBlank(d: LevelData)
    requires Level.NameCandidate("# " + DisplayName(d.name))
    ensures Trim(" " + DisplayName(d.name)) != []
  {
    var nameLine := "# " + DisplayName(d.name);
    assert nameLine[1..] == " " + DisplayName(d.name);
    Level.NameIsNotBlank(nameLine);
  }

  /** The `@` line has no newline and ends in a digit. */
  lemma AtLinePlain(ps: seq<(nat, nat)>)
    requires |ps| > 0
    ensures PlainLine("@ " + Join(Level.PairWords(ps), ' '))
  {
    var ws := Level.PairWords(ps);
    forall i | 0 <= i < |ws|
      ensures PlainLine(ws[i]) && |ws[i]| > 0 && ws[i][|ws[i]| - 1] != '\r'
    {
      ShowNatIsPlain(ps[i].0);
      ShowNatIsPlain(ps[i].1);
    }
    JoinPlain(ws);
  }

  lemma {:induction false} JoinPlain(ws: seq<string>)
    requires |ws| > 0
    requires forall i :: 0 <= i < |ws| ==> PlainLine(ws[i]) && |ws[i]| > 0
    ensures PlainLine(Join(ws, ' ')) && |Join(ws, ' ')| > 0
    decreases |ws|
  {
    if |ws| > 1 {
      JoinPlain(ws[1..]);
    }
  }

  /** The one space after the '#' is all the reader trims from a name that
      neither starts nor ends with whitespace. */
  lemma TrimLeadingSpace(t: string)
    requires |t| > 0 && !IsSpace(t[0]) && !IsSpace(t[|t| - 1])
    ensures Trim(" " + t) == t
  {
    var s := " " + t;
    assert s[|s| - 1] == t[|t| - 1];
    assert TrimEnd(s) == s;
    assert s[1..] == t;
    TrimUnchanged(t);
  }

  /** A name with a letter outside the map legend, no newline, and no
      whitespace at either end makes a name line the reader takes as it
      is. */
  lemma NameLineOf(t: string, k: nat)
    requires k < |t| && Level.IsLetter(t[k]) && !Level.IsMapChar(t[k])
    requires '\n' !in t && !IsSpace(t[0]) && !IsSpace(t[|t| - 1])
    ensures Level.NameCandidate("# " + t) && PlainLine("# " + t) && Trim(" " + t) == t
  {
    var line := "# " + t;
    assert line[1..] == " " + t;
    assert line[1..][k + 1] == t[k];
    assert line[|line| - 1] == t[|t| - 1];
    assert '\n' !in line by {
      assert forall i :: 2 <= i < |line| ==> line[i] == t[i - 2];
    }
    TrimLeadingSpace(t);
  }

  /** The name line of the array `test` is a name line, and it names the
      level "Test Level". */
  lemma TestNameLine()
    ensures Level.NameCandidate("# " + DisplayName("test")) && PlainLine("# " + DisplayName("test"))
    ensures Trim(" " + DisplayName("test")) == "Test Level"
  {
    var t := "Test Level";
    assert DisplayName("test") == t;
    assert t[1] == 'e' && t[|t| - 1] == 'l';
    NameLineOf(t, 1);
  }

  /** The name line of an array `levelN...` is a name line, and it names
      the level "Level N". */
  lemma LevelNameLine(name: string, digits: string, rest: string)
    requires |name| >= 5 && name[..5] == "level" && name[5..] == digits + rest && |digits| > 0 && AllDigits(digits)
    requires |rest| > 0 ==> !IsDigit(rest[0])
    ensures Level.NameCandidate("# " + DisplayName(name)) && PlainLine("# " + DisplayName(name))
    ensures Trim(" " + DisplayName(name)) == "Level " + ShowNat(DigitsValue(digits))
  {
    DisplayNameNumber(name, digits, rest);
    ShowNatIsPlain(DigitsValue(digits));
    NumberedNameLine(ShowNat(DigitsValue(digits)));
  }

  lemma NumberedNameLine(n: string)
    requires |n| > 0 && PlainLine(n) && !IsSpace(n[|n| - 1])
    ensures var t := "Level " + n; Level.NameCandidate("# " + t) && PlainLine("# " + t) && Trim(" " + t) == t
  {
    var t := "Level " + n;
    assert t[0] == 'L' && t[|t| - 1] == n[|n| - 1];
    assert '\n' !in "Level ";
    NameLineOf(t, 0);
  }

  /** A string of ASCII characters is as long in bytes as in characters. */
  lemma {:induction false} AsciiByteLen(s: string)
    requires forall i :: 0 <= i < |s| ==> s[i] as int < 0x80
    ensures ByteLen(s) == |s|
    decreases |s|
  {
    if |s| > 0 {
      AsciiByteLen(s[..|s| - 1]);
    }
  }

  /** Rows all of one byte length are not padded. */
  lemma EvenRowsUnpadded(rows: seq<string>, w: nat)
    requires forall i :: 0 <= i < |rows| ==> ByteLen(rows[i]) == w
    ensures Level.PadRows(rows, Level.MaxByteLen(rows)) == rows
  {
    if |rows| > 0 {
      assert Level.MaxByteLen(rows) == w;
    }
  }

  /** A level of legend rows 28 characters wide reads back with its rows
      up to the last non-blank one, unpadded. */
  lemma WideTextReadsBack(d: LevelData)
    requires Level.NameCandidate("# " + DisplayName(d.name)) && PlainLine("# " + DisplayName(d.name))
    requires forall i :: 0 <= i < |d.rows| ==> LegendRow(d.rows[i]) && |d.rows[i]| == WIDTH
    requires forall i :: 0 <= i < |d.overlaps| ==> OnMap(d.overlaps[i])
    ensures var kept := Level.DropBlankTail(d.rows);
      Level.ParseLevel(Unlines(TextLines(d)))
        == if |kept| == 0 then None else Some(Level.LevelDef(Trim(" " + DisplayName(d.name)), kept, d.overlaps))
  {
    forall i | 0 <= i < |d.rows|
      ensures ByteLen(d.rows[i]) == WIDTH
    {
      AsciiByteLen(d.rows[i]);
    }
    var nm := Trim(" " + DisplayName(d.name));
    assert Level.ParseLevel(Unlines(TextLines(d))) == Level.LevelOfScan(Level.Scan(nm, d.rows, d.overlaps)) by {
      TextReadsBack(d);
    }
    NameIsNotBlank(d);
    EvenRowsUnpadded(Level.DropBlankTail(d.rows), WIDTH);
  }

  /** The same level read by `parse_level_file` as written. */
  lemma WideTextReadsBackAsWritten(d: LevelData)
    requires Level.NameCandidate("# " + DisplayName(d.name)) && PlainLine("# " + DisplayName(d.name))
    requires forall i :: 0 <= i < |d.rows| ==> LegendRow(d.rows[i]) && |d.rows[i]| == WIDTH
    requires forall i :: 0 <= i < |d.overlaps| ==> OnMap(d.overlaps[i])
    ensures var kept := Level.DropBlankTail(d.rows);
      Level.ParseLevelAsWritten(Unlines(TextLines(d)))
        == if |kept| == 0 then None else Some(Level.LevelDef(Trim(" " + DisplayName(d.name)), kept, d.overlaps))
  {
    WideTextReadsBack(d);
    TextReadsBackAsWritten(d);
  }

  /** The converter's output for a decoded level, read by the game's
      single-level reader, as written or corrected alike (the name line
      comes first): no level when all 16 rows are blank, and
      otherwise the name from the name line, the rows up to the last
      non-blank one (all 28 bytes wide, so none is padded), and the
      overlaps as the extra hidden ladders. */
  lemma DecodedTextReadsBack(name: string, data: seq<bv8>)
    requires Decode(name, data).Decoded?
    requires Level.NameCandidate("# " + DisplayName(name)) && PlainLine("# " + DisplayName(name))
    ensures var d := Decode(name, data).level;
      var kept := Level.DropBlankTail(d.rows);
      Level.ParseLevel(Unlines(TextLines(d)))
        == if |kept| == 0 then None else Some(Level.LevelDef(Trim(" " + DisplayName(name)), kept, d.overlaps))
    ensures var d := Decode(name, data).level;
      var kept := Level.DropBlankTail(d.rows);
      Level.ParseLevelAsWritten(Unlines(TextLines(d)))
        == if |kept| == 0 then None else Some(Level.LevelDef(Trim(" " + DisplayName(name)), kept, d.overlaps))
  {
    var d := Decode(name, data).level;
    assert d.name == name && forall i :: 0 <= i < |d.overlaps| ==> OnMap(d.overlaps[i]) by {
      DecodedLevel(name, data);
    }
    assert forall i :: 0 <= i < |d.rows| ==> LegendRow(d.rows[i]) && |d.rows[i]| == WIDTH by {
      DecodedRowsLegend(name, data);
    }
    WideTextReadsBack(d);
    WideTextReadsBackAsWritten(d);
  }
}
