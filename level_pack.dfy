/** Level packs: `##` metadata lines, then levels separated by `---`
    lines, each parsed as a single-level file. */
module LevelPack {
  import opened Common
  import opened Text
  import opened Level

  // ---------------------------------------------------------------------
  // Level packs
  // ---------------------------------------------------------------------

  /** A line holding only `---`, surrounding whitespace allowed. */
  predicate IsSeparator(line: string)
  {
    Trim(line) == "---"
  }

  /** `parse_pack_levels`' accumulators: the levels so far, the text of the
      section being read, and whether the first separator has been seen. */
  datatype PackScan = PackScan(levels: seq<LevelDef>, section: string, inLevels: bool)

  /** The levels with the section's level added, if the section is not
      empty and parses. */
  function Flush(levels: seq<LevelDef>, section: string): seq<LevelDef>
  {
    if section == [] then levels
    else
      match ParseLevel(section)
      case Some(d) => levels + [d]
      case None => levels
  }

  /** One line of `parse_pack_levels`: a separator closes the section (once
      inside the levels) and opens a new one; other lines before the first
      separator are skipped, later ones are added to the section. */
  function PackStep(p: PackScan, line: string): PackScan
  {
    if IsSeparator(line) then PackScan(if p.inLevels then Flush(p.levels, p.section) else p.levels, [], true)
    else if !p.inLevels then p
    else p.(section := p.section + line + "\n")
  }

  function PackFold(p: PackScan, ls: seq<string>): PackScan
  {
    if |ls| == 0 then p else PackStep(PackFold(p, ls[..|ls| - 1]), ls[|ls| - 1])
  }

  /** The levels `parse_pack_levels` reads from the lines `ls`. */
  function PackLevels(ls: seq<string>): seq<LevelDef>
  {
    var p := PackFold(PackScan([], [], false), ls);
    Flush(p.levels, p.section)
  }

  lemma PackFoldStep(p: PackScan, ls: seq<string>, i: nat)
    requires i < |ls|
    ensures PackFold(p, ls[..i + 1]) == PackStep(PackFold(p, ls[..i]), ls[i])
  {
    assert ls[..i + 1][..i] == ls[..i];
  }

  /** `parse_pack_levels`. */
  method ParsePackLevels(content: string) returns (levels: seq<LevelDef>)
    ensures levels == PackLevels(Lines(content))
  {
    var ls := Lines(content);
    levels := [];
    var section: string := [];
    var inLevels := false;
    var i := 0;
    while i < |ls|
      invariant i <= |ls|
      invariant PackScan(levels, section, inLevels) == PackFold(PackScan([], [], false), ls[..i])
    {
      PackFoldStep(PackScan([], [], false), ls, i);
      var line := ls[i];
      i := i + 1;
      if Trim(line) == "---" {
        if inLevels && section != [] {
          var def := ParseLevelFile(section);
          if def.Some? {
            levels := levels + [def.value];
          }
        }
        section := [];
        inLevels := true;
        continue;
      }
      if !inLevels {
        continue;
      }
      section := section + line + "\n";
    }
    assert ls[..i] == ls;
    if section != [] {
      var def := ParseLevelFile(section);
      if def.Some? {
        levels := levels + [def.value];
      }
    }
  }

  lemma {:induction false} PackFoldAppend(p: PackScan, a: seq<string>, b: seq<string>)
    ensures PackFold(p, a + b) == PackFold(PackFold(p, a), b)
    decreases |b|
  {
    if |b| == 0 {
      assert a + b == a;
    } else {
      var n := |b| - 1;
      assert (a + b)[..|a + b| - 1] == a + b[..n];
      PackFoldAppend(p, a, b[..n]);
    }
  }

  predicate NoSeparator(ls: seq<string>)
  {
    forall i :: 0 <= i < |ls| ==> !IsSeparator(ls[i])
  }

  /** Lines before the first separator leave the accumulators as they
      were. */
  lemma {:induction false} PreambleIsSkipped(ls: seq<string>)
    requires NoSeparator(ls)
    ensures PackFold(PackScan([], [], false), ls) == PackScan([], [], false)
    decreases |ls|
  {
    if |ls| > 0 {
      PreambleIsSkipped(ls[..|ls| - 1]);
    }
  }

  /** Everything before the first `---` is ignored. */
  lemma PackIgnoresPreamble(pre: seq<string>, ls: seq<string>)
    requires NoSeparator(pre)
    ensures PackLevels(pre + ls) == PackLevels(ls)
  {
    PackFoldAppend(PackScan([], [], false), pre, ls);
    PreambleIsSkipped(pre);
  }

  /** Inside the levels, separator-free lines only add to the section. */
  lemma {:induction false} SectionIsCollected(levels: seq<LevelDef>, section: string, g: seq<string>)
    requires NoSeparator(g)
    ensures PackFold(PackScan(levels, section, true), g) == PackScan(levels, section + Unlines(g), true)
    decreases |g|
  {
    if |g| == 0 {
      assert section + Unlines(g) == section;
    } else {
      var n := |g| - 1;
      SectionIsCollected(levels, section, g[..n]);
      UnlinesAppend(g[..n], [g[n]]);
      assert g[..n] + [g[n]] == g;
    }
  }

  /** A pack body: each section preceded by a `---` line. */
  function Framed(gs: seq<seq<string>>): seq<string>
  {
    if |gs| == 0 then [] else Framed(gs[..|gs| - 1]) + ["---"] + gs[|gs| - 1]
  }

  /** The level of each section that is not empty and parses, in order. */
  function Kept(gs: seq<seq<string>>): seq<LevelDef>
  {
    if |gs| == 0 then []
    else
      var g := gs[|gs| - 1];
      Kept(gs[..|gs| - 1])
      + (if |g| > 0 && ParseLevel(Unlines(g)).Some? then [ParseLevel(Unlines(g)).value] else [])
  }

  predicate SectionsFree(gs: seq<seq<string>>)
  {
    forall i :: 0 <= i < |gs| ==> NoSeparator(gs[i])
  }

  lemma FlushKeeps(gs: seq<seq<string>>)
    requires |gs| > 0
    ensures Flush(Kept(gs[..|gs| - 1]), Unlines(gs[|gs| - 1])) == Kept(gs)
  {
    var g := gs[|gs| - 1];
    if |g| == 0 {
      assert Unlines(g) == [];
    }
  }

  lemma SeparatorIsSeparator(line: string)
    requires line == "---"
    ensures IsSeparator(line)
  {
    TrimUnchanged(line);
  }

  lemma {:induction false} FramedFold(gs: seq<seq<string>>)
    requires |gs| > 0 && SectionsFree(gs)
    ensures PackFold(PackScan([], [], false), Framed(gs))
      == PackScan(Kept(gs[..|gs| - 1]), Unlines(gs[|gs| - 1]), true)
    decreases |gs|
  {
    var n := |gs| - 1;
    var start := PackScan([], [], false);
    var head := Framed(gs[..n]);
    assert gs[..n][..|gs[..n]|] == gs[..n];
    assert Framed(gs) == head + ["---"] + gs[n];
    PackFoldAppend(start, head + ["---"], gs[n]);
    PackFoldAppend(start, head, ["---"]);
    SeparatorIsSeparator("---");
    if n == 0 {
      assert head == [];
    } else {
      assert SectionsFree(gs[..n]);
      FramedFold(gs[..n]);
      assert gs[..n][..n - 1] == gs[..n - 1];
      FlushKeeps(gs[..n]);
    }
    SectionIsCollected(Kept(gs[..n]), [], gs[n]);
  }

  /** A pack of a preamble and `---`-framed sections yields the level of
      every non-empty section that parses, in order. */
  lemma PackOfSections(pre: seq<string>, gs: seq<seq<string>>)
    requires NoSeparator(pre) && SectionsFree(gs)
    ensures PackLevels(pre + Framed(gs)) == Kept(gs)
  {
    PackIgnoresPreamble(pre, Framed(gs));
    if |gs| > 0 {
      FramedFold(gs);
      FlushKeeps(gs);
    }
  }

  // ---------------------------------------------------------------------
  // Pack metadata
  // ---------------------------------------------------------------------

  /** `PackInfo`, as `parse_pack_info` fills it. */
  datatype PackInfo = PackInfo(name: string, author: string, description: string, levelCount: nat, path: string)

  /** The metadata fields `parse_pack_info` collects. */
  datatype Meta = Meta(name: string, author: string, description: string)

  const AUTHOR_TAG: string := "## Author:"
  const DESCRIPTION_TAG: string := "## Description:"

  /** The metadata read from the lines `ls` on top of `m`: an author or
      description tag sets that field (the last one wins), another `##`
      line names the pack while it has no name yet, and a `---` or other
      `#` line ends the metadata; any other line is skipped. */
  function MetaFrom(m: Meta, ls: seq<string>): Meta
    decreases |ls|
  {
    if |ls| == 0 then m
    else
      var t := Trim(ls[0]);
      if AUTHOR_TAG <= t then MetaFrom(m.(author := Trim(t[|AUTHOR_TAG|..])), ls[1..])
      else if DESCRIPTION_TAG <= t then MetaFrom(m.(description := Trim(t[|DESCRIPTION_TAG|..])), ls[1..])
      else if "##" <= t then MetaFrom(if m.name == [] then m.(name := Trim(t[2..])) else m, ls[1..])
      else if t == "---" || "#" <= t then m
      else MetaFrom(m, ls[1..])
  }

  /** The number of separator lines. */
  function SeparatorCount(ls: seq<string>): nat
  {
    if |ls| == 0 then 0
    else SeparatorCount(ls[..|ls| - 1]) + (if IsSeparator(ls[|ls| - 1]) then 1 else 0)
  }

  /** What `parse_pack_info` reports for a pack file with text `content`,
      file stem `stem` and path `path`. */
  function PackInfoOf(content: string, stem: string, path: string): PackInfo
  {
    var ls := Lines(content);
    var m := MetaFrom(Meta([], [], []), ls);
    var count := SeparatorCount(ls);
    PackInfo(if m.name == [] then stem else m.name, m.author, m.description, if count >= 1 then count else 1, path)
  }

  lemma MetaFromStep(m: Meta, ls: seq<string>, i: nat)
    requires i < |ls|
    ensures ls[i..][1..] == ls[i + 1..]
  {
  }

  lemma SeparatorCountStep(ls: seq<string>, i: nat)
    requires i < |ls|
    ensures SeparatorCount(ls[..i + 1]) == SeparatorCount(ls[..i]) + (if IsSeparator(ls[i]) then 1 else 0)
  {
    assert ls[..i + 1][..i] == ls[..i];
  }

  /** The metadata loop of `parse_pack_info`. */
  method ReadMeta(ls: seq<string>) returns (m: Meta)
    ensures m == MetaFrom(Meta([], [], []), ls)
  {
    var name: string := [];
    var author: string := [];
    var description: string := [];
    var i := 0;
    while i < |ls|
      invariant i <= |ls|
      invariant MetaFrom(Meta(name, author, description), ls[i..]) == MetaFrom(Meta([], [], []), ls)
    {
      MetaFromStep(Meta(name, author, description), ls, i);
      var t := Trim(ls[i]);
      if AUTHOR_TAG <= t {
        author := Trim(t[|AUTHOR_TAG|..]);
      } else if DESCRIPTION_TAG <= t {
        description := Trim(t[|DESCRIPTION_TAG|..]);
      } else if "##" <= t {
        if name == [] {
          name := Trim(t[2..]);
        }
      } else if t == "---" || "#" <= t {
        break;
      }
      i := i + 1;
    }
    m := Meta(name, author, description);
  }

  /** `parse_pack_info` for the file's text, its stem and its path. */
  method ParsePackInfo(content: string, stem: string, path: string) returns (info: PackInfo)
    ensures info == PackInfoOf(content, stem, path)
  {
    var ls := Lines(content);
    var m := ReadMeta(ls);
    var count := 0;
    var i := 0;
    while i < |ls|
      invariant i <= |ls|
      invariant count == SeparatorCount(ls[..i])
    {
      SeparatorCountStep(ls, i);
      if Trim(ls[i]) == "---" {
        count := count + 1;
      }
      i := i + 1;
    }
    assert ls[..i] == ls;
    if count < 1 {
      count := 1;
    }
    var name := m.name;
    if name == [] {
      name := stem;
    }
    info := PackInfo(name, m.author, m.description, count, path);
  }

  /** A line that ends the metadata: `---`, or a `#` line that is not a
      `##` line. */
  predicate StopLine(line: string)
  {
    var t := Trim(line);
    !("##" <= t) && (t == "---" || "#" <= t)
  }

  /** A plain `##` line (not an author or description tag) with a
      non-empty name after the `##`. */
  predicate NameHeader(line: string)
  {
    var t := Trim(line);
    "##" <= t && !(AUTHOR_TAG <= t) && !(DESCRIPTION_TAG <= t) && Trim(t[2..]) != []
  }

  /** No line before index `j` ends the metadata. */
  predicate BeforeStop(ls: seq<string>, j: nat)
    requires j <= |ls|
  {
    forall k :: 0 <= k < j ==> !StopLine(ls[k])
  }

  /** No named plain `##` line comes before the metadata ends. */
  predicate NoNameBeforeStop(ls: seq<string>)
  {
    forall j :: 0 <= j < |ls| && BeforeStop(ls, j) ==> !NameHeader(ls[j])
  }

  function HeaderName(line: string): string
    requires NameHeader(line)
  {
    Trim(Trim(line)[2..])
  }

  lemma {:induction false} MetaKeepsName(m: Meta, ls: seq<string>)
    requires m.name != []
    ensures MetaFrom(m, ls).name == m.name
    decreases |ls|
  {
    if |ls| > 0 {
      var t := Trim(ls[0]);
      if AUTHOR_TAG <= t {
        MetaKeepsName(m.(author := Trim(t[|AUTHOR_TAG|..])), ls[1..]);
      } else if DESCRIPTION_TAG <= t {
        MetaKeepsName(m.(description := Trim(t[|DESCRIPTION_TAG|..])), ls[1..]);
      } else {
        MetaKeepsName(m, ls[1..]);
      }
    }
  }

  /** The first plain `##` line with a name names the pack, provided no
      line ending the metadata comes before it. */
  lemma {:induction false} MetaNameAt(m: Meta, ls: seq<string>, i: nat)
    requires m.name == [] && i < |ls| && NameHeader(ls[i])
    requires forall j :: 0 <= j < i ==> !StopLine(ls[j]) && !NameHeader(ls[j])
    ensures MetaFrom(m, ls).name == HeaderName(ls[i])
    decreases |ls|
  {
    var t := Trim(ls[0]);
    if i == 0 {
      MetaKeepsName(m.(name := Trim(t[2..])), ls[1..]);
    } else {
      assert !StopLine(ls[0]) && !NameHeader(ls[0]);
      var m' := if AUTHOR_TAG <= t then m.(author := Trim(t[|AUTHOR_TAG|..]))
        else if DESCRIPTION_TAG <= t then m.(description := Trim(t[|DESCRIPTION_TAG|..]))
        else if "##" <= t then m.(name := Trim(t[2..]))
        else m;
      assert MetaFrom(m, ls) == MetaFrom(m', ls[1..]);
      assert forall j :: 0 <= j < i - 1 ==> ls[1..][j] == ls[j + 1];
      MetaNameAt(m', ls[1..], i - 1);
    }
  }

  /** Without a named `##` line before the metadata ends, no name is
      read. */
  lemma {:induction false} MetaNoName(m: Meta, ls: seq<string>)
    requires m.name == [] && NoNameBeforeStop(ls)
    ensures MetaFrom(m, ls).name == []
    decreases |ls|
  {
    if |ls| > 0 && !StopLine(ls[0]) {
      var t := Trim(ls[0]);
      assert !NameHeader(ls[0]);
      var m' := if AUTHOR_TAG <= t then m.(author := Trim(t[|AUTHOR_TAG|..]))
        else if DESCRIPTION_TAG <= t then m.(description := Trim(t[|DESCRIPTION_TAG|..]))
        else if "##" <= t then m.(name := Trim(t[2..]))
        else m;
      assert MetaFrom(m, ls) == MetaFrom(m', ls[1..]);
      forall j | 0 <= j < |ls| - 1 && BeforeStop(ls[1..], j)
        ensures !NameHeader(ls[1..][j])
      {
        assert BeforeStop(ls, j + 1) by {
          forall k | 0 <= k < j + 1 ensures !StopLine(ls[k]) {
            if k > 0 { assert ls[k] == ls[1..][k - 1]; }
          }
        }
      }
      MetaNoName(m', ls[1..]);
    }
  }

  /** The pack's name is the first named plain `##` line, provided no
      line ending the metadata comes before it. */
  lemma PackName(content: string, stem: string, path: string, i: nat)
    requires var ls := Lines(content);
      i < |ls| && NameHeader(ls[i]) && forall j :: 0 <= j < i ==> !StopLine(ls[j]) && !NameHeader(ls[j])
    ensures PackInfoOf(content, stem, path).name == HeaderName(Lines(content)[i])
  {
    MetaNameAt(Meta([], [], []), Lines(content), i);
  }

  /** Without a named plain `##` line before the metadata ends, the pack is
      named after its file stem. */
  lemma PackNameFallsBackToStem(content: string, stem: string, path: string)
    requires NoNameBeforeStop(Lines(content))
    ensures PackInfoOf(content, stem, path).name == stem
  {
    MetaNoName(Meta([], [], []), Lines(content));
  }

  /** Through the lines, the levels read so far, plus one for the open
      section, never outnumber the separators. */
  lemma {:induction false} LevelsBoundedBySeparators(ls: seq<string>)
    ensures var p := PackFold(PackScan([], [], false), ls);
      (!p.inLevels ==> p.levels == [] && p.section == [])
      && |p.levels| + (if p.inLevels then 1 else 0) <= SeparatorCount(ls)
    decreases |ls|
  {
    if |ls| > 0 {
      LevelsBoundedBySeparators(ls[..|ls| - 1]);
    }
  }

  /** `parse_pack_info`'s level count is at least 1 and never below the
      number of levels `parse_pack_levels` reads from the same text. */
  lemma LevelCountBoundsLevels(content: string, stem: string, path: string)
    ensures 1 <= PackInfoOf(content, stem, path).levelCount
    ensures |PackLevels(Lines(content))| <= PackInfoOf(content, stem, path).levelCount
  {
    LevelsBoundedBySeparators(Lines(content));
  }

  lemma {:induction false} SeparatorCountAppend(a: seq<string>, b: seq<string>)
    ensures SeparatorCount(a + b) == SeparatorCount(a) + SeparatorCount(b)
    decreases |b|
  {
    if |b| == 0 {
      assert a + b == a;
    } else {
      var n := |b| - 1;
      assert (a + b)[..|a + b| - 1] == a + b[..n];
      SeparatorCountAppend(a, b[..n]);
    }
  }

  lemma {:induction false} NoSeparatorCount(ls: seq<string>)
    requires NoSeparator(ls)
    ensures SeparatorCount(ls) == 0
    decreases |ls|
  {
    if |ls| > 0 {
      NoSeparatorCount(ls[..|ls| - 1]);
    }
  }

  lemma {:induction false} FramedSeparators(gs: seq<seq<string>>)
    requires SectionsFree(gs)
    ensures SeparatorCount(Framed(gs)) == |gs|
    decreases |gs|
  {
    if |gs| > 0 {
      var n := |gs| - 1;
      assert SectionsFree(gs[..n]);
      FramedSeparators(gs[..n]);
      SeparatorCountAppend(Framed(gs[..n]) + ["---"], gs[n]);
      SeparatorCountAppend(Framed(gs[..n]), ["---"]);
      SeparatorIsSeparator("---");
      assert ["---"][..0] == [];
      NoSeparatorCount(gs[n]);
    }
  }

  /** For a pack of a preamble and `---`-framed sections, the level count
      is the number of sections (1 when there are none). */
  lemma LevelCountOfSections(content: string, stem: string, path: string, pre: seq<string>, gs: seq<seq<string>>)
    requires Lines(content) == pre + Framed(gs)
    requires NoSeparator(pre) && SectionsFree(gs)
    ensures PackInfoOf(content, stem, path).levelCount == if |gs| >= 1 then |gs| else 1
  {
    SeparatorCountAppend(pre, Framed(gs));
    NoSeparatorCount(pre);
    FramedSeparators(gs);
  }
}
