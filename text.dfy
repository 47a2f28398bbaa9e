/** The string operations the save and level formats rely on, with the
    meaning Rust's `str` gives them: `lines`, `trim`, `trim_end`, `split`,
    `split_whitespace`, `strip_prefix`, unsigned `parse` and decimal
    formatting. Strings are sequences of Unicode scalar values. */
module Text {
  import opened Common

  /** `char::is_whitespace`: the characters with the Unicode White_Space
      property. */
  predicate IsSpace(c: char)
  {
    c == ' ' || '\t' <= c <= '\r' || c == '\U{85}' || c == '\U{A0}' || c == '\U{1680}'
    || '\U{2000}' <= c <= '\U{200A}' || c == '\U{2028}' || c == '\U{2029}'
    || c == '\U{202F}' || c == '\U{205F}' || c == '\U{3000}'
  }

  // ---------------------------------------------------------------------
  // Trimming
  // ---------------------------------------------------------------------

  /** `str::trim_end`: `s` with its trailing whitespace cut
      (`TrimEndCutsSpace` states what is cut). */
  function TrimEnd(s: string): (r: string)
    ensures |r| <= |s|
    decreases |s|
  {
    if |s| > 0 && IsSpace(s[|s| - 1]) then TrimEnd(s[..|s| - 1]) else s
  }

  /** `trim_end` keeps the longest prefix of `s` not ending in whitespace:
      only whitespace is cut. */
  lemma {:induction false} TrimEndCutsSpace(s: string)
    ensures var r := TrimEnd(s);
      r <= s && (|r| == 0 || !IsSpace(r[|r| - 1])) && forall i :: |r| <= i < |s| ==> IsSpace(s[i])
    decreases |s|
  {
    if |s| > 0 && IsSpace(s[|s| - 1]) {
      TrimEndCutsSpace(s[..|s| - 1]);
    }
  }

  /** `str::trim_start`: `s` with its leading whitespace cut
      (`TrimStartCutsSpace` states what is cut). */
  function TrimStart(s: string): (r: string)
    ensures |r| <= |s|
    decreases |s|
  {
    if |s| > 0 && IsSpace(s[0]) then TrimStart(s[1..]) else s
  }

  /** `trim_start` keeps the longest suffix of `s` not starting with
      whitespace: only whitespace is cut. */
  lemma {:induction false} TrimStartCutsSpace(s: string)
    ensures var r := TrimStart(s);
      r == s[|s| - |r|..] && (|r| == 0 || !IsSpace(r[0])) && forall i :: 0 <= i < |s| - |r| ==> IsSpace(s[i])
    decreases |s|
  {
    if |s| > 0 && IsSpace(s[0]) {
      TrimStartCutsSpace(s[1..]);
    }
  }

  /** `str::trim`: whitespace cut from both ends. */
  function Trim(s: string): (r: string)
  {
    TrimStart(TrimEnd(s))
  }

  /** A string that neither starts nor ends with whitespace is its own
      trim. */
  lemma TrimUnchanged(s: string)
    requires |s| == 0 || (!IsSpace(s[0]) && !IsSpace(s[|s| - 1]))
    ensures Trim(s) == s && TrimEnd(s) == s
  {
  }

  // ---------------------------------------------------------------------
  // Prefixes, splitting and joining
  // ---------------------------------------------------------------------

  /** `str::strip_prefix`. */
  function StripPrefix(s: string, p: string): (r: Option<string>)
    ensures r.Some? <==> p <= s
    ensures r.Some? ==> p + r.value == s
  {
    if p <= s then Some(s[|p|..]) else None
  }

  /** The first position of `c` in `s`. */
  function IndexOf(s: string, c: char): (i: nat)
    requires c in s
    ensures i < |s| && s[i] == c && c !in s[..i]
  {
    if s[0] == c then 0 else IndexOf(s[1..], c) + 1
  }

  /** `parts` joined with `sep` between consecutive parts (Rust's
      `join`). */
  function Join(parts: seq<string>, sep: char): string
  {
    if |parts| == 0 then []
    else if |parts| == 1 then parts[0]
    else parts[0] + [sep] + Join(parts[1..], sep)
  }

  /** `str::split` on one character: at least one piece, none containing
      the separator, and joining the pieces gives `s` back. */
  function Split(s: string, sep: char): (r: seq<string>)
    ensures |r| >= 1
    ensures forall i :: 0 <= i < |r| ==> sep !in r[i]
    ensures Join(r, sep) == s
    decreases |s|
  {
    if sep !in s then [s]
    else
      var i := IndexOf(s, sep);
      assert s == s[..i] + [sep] + s[i + 1..];
      [s[..i]] + Split(s[i + 1..], sep)
  }

  /** Splitting undoes joining, when no part holds the separator. */
  lemma {:induction false} SplitJoin(parts: seq<string>, sep: char)
    requires |parts| >= 1
    requires forall i :: 0 <= i < |parts| ==> sep !in parts[i]
    ensures Split(Join(parts, sep), sep) == parts
    decreases |parts|
  {
    if |parts| > 1 {
      var s := Join(parts, sep);
      var i := |parts[0]|;
      var rest := Join(parts[1..], sep);
      assert s == parts[0] + [sep] + rest;
      assert s[i] == sep && s[..i] == parts[0] && s[i + 1..] == rest;
      assert IndexOf(s, sep) == i by {
        IndexOfFirst(s, sep, i);
      }
      SplitJoin(parts[1..], sep);
      assert Split(s, sep) == [parts[0]] + Split(rest, sep);
      assert parts == [parts[0]] + parts[1..];
    }
  }

  lemma {:induction false} IndexOfFirst(s: string, c: char, k: nat)
    requires k < |s| && s[k] == c && c !in s[..k]
    ensures IndexOf(s, c) == k
    decreases k
  {
    if k > 0 {
      assert s[..k][0] == s[0];
      assert s[1..][k - 1] == c;
      assert s[1..][..k - 1] == s[..k][1..];
      IndexOfFirst(s[1..], c, k - 1);
    }
  }

  /** The length of the run of non-whitespace at the start of `s`. */
  function WordLength(s: string): (n: nat)
    ensures n <= |s|
    ensures forall i :: 0 <= i < n ==> !IsSpace(s[i])
    ensures n < |s| ==> IsSpace(s[n])
  {
    if |s| == 0 || IsSpace(s[0]) then 0 else 1 + WordLength(s[1..])
  }

  /** `str::split_whitespace`: the maximal runs of non-whitespace, in
      order. */
  function SplitWhitespace(s: string): (r: seq<string>)
    ensures forall i :: 0 <= i < |r| ==> |r[i]| > 0 && forall j :: 0 <= j < |r[i]| ==> !IsSpace(r[i][j])
    decreases |s|
  {
    if |s| == 0 then []
    else if IsSpace(s[0]) then SplitWhitespace(s[1..])
    else
      var n := WordLength(s);
      [s[..n]] + SplitWhitespace(s[n..])
  }

  /** Words joined by single spaces split back into the same words. */
  lemma {:induction false} SplitWhitespaceJoin(words: seq<string>)
    requires forall i :: 0 <= i < |words| ==> |words[i]| > 0 && forall j :: 0 <= j < |words[i]| ==> !IsSpace(words[i][j])
    ensures SplitWhitespace(Join(words, ' ')) == words
    decreases |words|
  {
    if |words| == 1 {
      assert WordLength(words[0]) == |words[0]| by { WordLengthOfWord(words[0], []); }
      assert words[0][..|words[0]|] == words[0];
      assert words[0][|words[0]|..] == [];
    } else if |words| > 1 {
      var s := Join(words, ' ');
      var rest := Join(words[1..], ' ');
      assert s == words[0] + ([' '] + rest);
      WordLengthOfWord(words[0], [' '] + rest);
      assert s[..|words[0]|] == words[0];
      assert s[|words[0]|..] == [' '] + rest;
      assert SplitWhitespace([' '] + rest) == SplitWhitespace(rest) by {
        assert ([' '] + rest)[1..] == rest;
      }
      SplitWhitespaceJoin(words[1..]);
    }
  }

  lemma {:induction false} WordLengthOfWord(w: string, tail: string)
    requires forall j :: 0 <= j < |w| ==> !IsSpace(w[j])
    requires |tail| == 0 || IsSpace(tail[0])
    ensures WordLength(w + tail) == |w|
    decreases |w|
  {
    if |w| > 0 {
      assert (w + tail)[1..] == w[1..] + tail;
      WordLengthOfWord(w[1..], tail);
    }
  }

  // ---------------------------------------------------------------------
  // Lines
  // ---------------------------------------------------------------------

  /** A line as `str::lines` yields it when it was ended by a newline: a
      carriage return right before the newline is dropped. */
  function DropReturn(l: string): string
  {
    if |l| > 0 && l[|l| - 1] == '\r' then l[..|l| - 1] else l
  }

  /** `str::lines`: `s` cut at every newline; a final newline does not
      start another line, and a "\r\n" ending counts as a newline. */
  function Lines(s: string): (r: seq<string>)
    ensures |s| == 0 <==> |r| == 0
    decreases |s|
  {
    if |s| == 0 then []
    else if '\n' !in s then [s]
    else
      var i := IndexOf(s, '\n');
      [DropReturn(s[..i])] + Lines(s[i + 1..])
  }

  /** Each line followed by a newline: the text a writer that ends every
      line with "\n" produces. */
  function Unlines(ls: seq<string>): (s: string)
    ensures |ls| > 0 ==> |s| > 0
  {
    if |ls| == 0 then [] else ls[0] + "\n" + Unlines(ls[1..])
  }

  lemma {:induction false} UnlinesAppend(a: seq<string>, b: seq<string>)
    ensures Unlines(a + b) == Unlines(a) + Unlines(b)
    decreases |a|
  {
    if |a| > 0 {
      assert (a + b)[1..] == a[1..] + b;
      UnlinesAppend(a[1..], b);
      calc {
        Unlines(a + b);
        (a + b)[0] + "\n" + Unlines((a + b)[1..]);
        a[0] + "\n" + Unlines(a[1..] + b);
        a[0] + "\n" + (Unlines(a[1..]) + Unlines(b));
        Unlines(a) + Unlines(b);
      }
    } else {
      assert a + b == b;
    }
  }

  /** A line `lines` gives back unchanged: no newline inside and no
      carriage return at the end. */
  predicate PlainLine(l: string)
  {
    '\n' !in l && (|l| == 0 || l[|l| - 1] != '\r')
  }

  /** Reading back text written line by line gives the same lines. */
  lemma {:induction false} LinesOfUnlines(ls: seq<string>)
    requires forall i :: 0 <= i < |ls| ==> PlainLine(ls[i])
    ensures Lines(Unlines(ls)) == ls
    decreases |ls|
  {
    if |ls| > 0 {
      var s := Unlines(ls);
      var n := |ls[0]|;
      assert s == ls[0] + ("\n" + Unlines(ls[1..]));
      assert s[n] == '\n' && s[..n] == ls[0];
      IndexOfFirst(s, '\n', n);
      assert s[n + 1..] == Unlines(ls[1..]);
      LinesOfUnlines(ls[1..]);
    }
  }

  // ---------------------------------------------------------------------
  // Length in bytes
  // ---------------------------------------------------------------------

  /** The number of bytes UTF-8 spends on `c`. */
  function Utf8Width(c: char): (n: nat)
    ensures 1 <= n <= 4 && (n == 1 <==> c as int < 0x80)
  {
    if c as int < 0x80 then 1 else if c as int < 0x800 then 2 else if c as int < 0x1_0000 then 3 else 4
  }

  /** `str::len`: the length of `s` in UTF-8 bytes, never less than its
      number of characters. */
  function ByteLen(s: string): (n: nat)
    ensures n >= |s|
  {
    if |s| == 0 then 0 else ByteLen(s[..|s| - 1]) + Utf8Width(s[|s| - 1])
  }

  lemma {:induction false} ByteLenAppend(a: string, b: string)
    ensures ByteLen(a + b) == ByteLen(a) + ByteLen(b)
    decreases |b|
  {
    if |b| > 0 {
      assert (a + b)[..|a + b| - 1] == a + b[..|b| - 1];
      ByteLenAppend(a, b[..|b| - 1]);
    } else {
      assert a + b == a;
    }
  }

  /** Spaces take one byte each. */
  lemma {:induction false} SpacesByteLen(n: nat)
    ensures ByteLen(seq(n, _ => ' ')) == n
  {
    if n > 0 {
      assert seq(n, _ => ' ')[..n - 1] == seq(n - 1, _ => ' ');
      SpacesByteLen(n - 1);
    }
  }

  // ---------------------------------------------------------------------
  // Unsigned decimal numbers
  // ---------------------------------------------------------------------

  const U32_MAX: nat := 0xFFFF_FFFF
  /** `usize` on the 64-bit targets the game is built for. */
  const USIZE_MAX: nat := 0xFFFF_FFFF_FFFF_FFFF
  const U64_MAX: nat := 0xFFFF_FFFF_FFFF_FFFF

  predicate IsDigit(c: char)
  {
    '0' <= c <= '9'
  }

  predicate AllDigits(s: string)
  {
    forall i :: 0 <= i < |s| ==> IsDigit(s[i])
  }

  /** The number the decimal digits `s` spell. */
  function DigitsValue(s: string): nat
    requires AllDigits(s)
  {
    if |s| == 0 then 0
    else DigitsValue(s[..|s| - 1]) * 10 + (s[|s| - 1] as int - '0' as int)
  }

  /** `str::parse` for an unsigned integer type whose largest value is
      `max`: an optional '+', then at least one decimal digit and nothing
      else; a value above `max` is an overflow error. */
  function ParseUint(s: string, max: nat): (r: Option<nat>)
    ensures r.Some? ==> r.value <= max
    ensures r.Some? ==> |s| > 0 && (IsDigit(s[0]) || s[0] == '+')
  {
    var digits := if |s| > 0 && s[0] == '+' then s[1..] else s;
    if |digits| == 0 || !AllDigits(digits) then None
    else if DigitsValue(digits) > max then None
    else Some(DigitsValue(digits))
  }

  function DigitChar(d: nat): (c: char)
    requires d < 10
    ensures IsDigit(c) && c as int - '0' as int == d
  {
    (d + '0' as int) as char
  }

  /** `format!("{}", n)`: decimal digits without leading zeros. */
  function ShowNat(n: nat): (s: string)
    ensures |s| > 0 && AllDigits(s)
  {
    if n < 10 then [DigitChar(n)] else ShowNat(n / 10) + [DigitChar(n % 10)]
  }

  lemma {:induction false} ShowNatValue(n: nat)
    ensures DigitsValue(ShowNat(n)) == n
  {
    if n >= 10 {
      var s := ShowNat(n);
      assert s[..|s| - 1] == ShowNat(n / 10);
      ShowNatValue(n / 10);
    }
  }

  /** Parsing a formatted number gives the number back, whenever it fits
      the type. */
  lemma ParseShowNat(n: nat, max: nat)
    requires n <= max
    ensures ParseUint(ShowNat(n), max) == Some(n)
  {
    ShowNatValue(n);
  }

  /** A formatted number is free of whitespace, commas and newlines. */
  lemma ShowNatIsPlain(n: nat)
    ensures var s := ShowNat(n);
      !IsSpace(s[0]) && !IsSpace(s[|s| - 1]) && ',' !in s && PlainLine(s)
      && forall i :: 0 <= i < |s| ==> !IsSpace(s[i])
  {
    var s := ShowNat(n);
    assert forall i :: 0 <= i < |s| ==> IsDigit(s[i]);
  }
}
