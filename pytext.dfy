/** Python `str` and `pathlib` behaviour that the core relies on, written out over
    `seq<char>`: prefix tests, `removeprefix`, `lstrip(chars)`, `strip()`, `split()`,
    `splitlines()`, `sep.join(...)`, `split(sep)`, universal-newline reading,
    `Path.name`, `Path.suffix` and `f"{n}"` for integers. */
module PyText {
  import opened Wrappers

  // ---------------------------------------------------------------------------
  // Prefixes
  // ---------------------------------------------------------------------------

  /** `s.startswith(p)` */
  predicate StartsWith(s: string, p: string) {
    |p| <= |s| && s[..|p|] == p
  }

  /** `s.removeprefix(p)`: removes `p` once when `s` starts with it. */
  function RemovePrefix(s: string, p: string): (r: string)
    ensures StartsWith(s, p) ==> p + r == s
    ensures !StartsWith(s, p) ==> r == s
  {
    if StartsWith(s, p) then
      assert s == s[..|p|] + s[|p|..];
      s[|p|..]
    else s
  }

  lemma RemovePrefixOfConcat(p: string, r: string)
    ensures StartsWith(p + r, p)
    ensures RemovePrefix(p + r, p) == r
  {
    assert (p + r)[..|p|] == p;
  }

  /** `s.lstrip(chars)`: drops the longest leading run of characters that belong to
      the SET `chars` (not a prefix string). */
  function LStrip(s: string, chars: set<char>): (r: string)
    ensures |r| <= |s| && r == s[|s| - |r|..]
    ensures forall i :: 0 <= i < |s| - |r| ==> s[i] in chars
    ensures r != [] ==> r[0] !in chars
  {
    if s != [] && s[0] in chars then
      var r := LStrip(s[1..], chars);
      assert forall i :: 1 <= i < |s| - |r| ==> s[i] == s[1..][i - 1];
      r
    else s
  }

  /** The strip stops exactly where the run of characters from `chars` ends. */
  lemma LStripAfterRun(run: string, rest: string, chars: set<char>)
    requires forall i :: 0 <= i < |run| ==> run[i] in chars
    requires rest == [] || rest[0] !in chars
    ensures LStrip(run + rest, chars) == rest
  {
    var s := run + rest;
    var r := LStrip(s, chars);
    assert forall i :: 0 <= i < |run| ==> s[i] == run[i];
    assert forall i :: 0 <= i < |rest| ==> s[|run| + i] == rest[i];
    assert |r| == |rest|;
    assert s[|s| - |r|..] == rest;
  }

  // ---------------------------------------------------------------------------
  // Whitespace and line breaks
  // ---------------------------------------------------------------------------

  /** `c.isspace()`: the characters Python treats as whitespace. */
  predicate IsSpace(c: char) {
    var n := c as int;
    (9 <= n <= 13) || (28 <= n <= 32) || n == 0x85 || n == 0xA0 || n == 0x1680
    || (0x2000 <= n <= 0x200A) || n == 0x2028 || n == 0x2029 || n == 0x202F
    || n == 0x205F || n == 0x3000
  }

  /** The characters at which `str.splitlines()` ends a line. */
  predicate IsLineBreak(c: char) {
    var n := c as int;
    (10 <= n <= 13) || (28 <= n <= 30) || n == 0x85 || n == 0x2028 || n == 0x2029
  }

  predicate NoSpace(s: string) {
    forall i :: 0 <= i < |s| ==> !IsSpace(s[i])
  }

  predicate NoLineBreak(s: string) {
    forall i :: 0 <= i < |s| ==> !IsLineBreak(s[i])
  }

  /** Every line-break character is whitespace, so text without whitespace has no line break. */
  lemma NoSpaceNoLineBreak(s: string)
    requires NoSpace(s)
    ensures NoLineBreak(s) && '\n' !in s && '\r' !in s
  {
  }

  /** `s.lstrip()` with no argument. */
  function LStripSpace(s: string): (r: string)
    ensures |r| <= |s| && r == s[|s| - |r|..]
    ensures forall i :: 0 <= i < |s| - |r| ==> IsSpace(s[i])
    ensures r != [] ==> !IsSpace(r[0])
  {
    if s != [] && IsSpace(s[0]) then
      var r := LStripSpace(s[1..]);
      assert forall i :: 1 <= i < |s| - |r| ==> s[i] == s[1..][i - 1];
      r
    else s
  }

  /** `s.rstrip()` with no argument. */
  function RStripSpace(s: string): (r: string)
    ensures |r| <= |s| && r == s[..|r|]
    ensures forall i :: |r| <= i < |s| ==> IsSpace(s[i])
    ensures r != [] ==> !IsSpace(r[|r| - 1])
  {
    if s != [] && IsSpace(s[|s| - 1]) then
      var r := RStripSpace(s[..|s| - 1]);
      assert forall i :: |r| <= i < |s| - 1 ==> s[i] == s[..|s| - 1][i];
      r
    else s
  }

  /** `s.strip()` with no argument. */
  function Strip(s: string): (r: string)
    ensures |r| <= |s|
    ensures r != [] ==> !IsSpace(r[0]) && !IsSpace(r[|r| - 1])
    ensures exists i, j ::
              && 0 <= i <= j <= |s| && r == s[i..j]
              && (forall k :: 0 <= k < i ==> IsSpace(s[k]))
              && (forall k :: j <= k < |s| ==> IsSpace(s[k]))
  {
    var l := LStripSpace(s);
    var r := RStripSpace(l);
    StripWindow(s, l, r);
    r
  }

  /** The text left by both strips is a window of `s` with whitespace on either side. */
  lemma StripWindow(s: string, l: string, r: string)
    requires |l| <= |s| && l == s[|s| - |l|..]
    requires forall k :: 0 <= k < |s| - |l| ==> IsSpace(s[k])
    requires |r| <= |l| && r == l[..|r|]
    requires forall k :: |r| <= k < |l| ==> IsSpace(l[k])
    ensures var i, j := |s| - |l|, |s| - |l| + |r|;
      && 0 <= i <= j <= |s| && r == s[i..j]
      && (forall k :: 0 <= k < i ==> IsSpace(s[k]))
      && (forall k :: j <= k < |s| ==> IsSpace(s[k]))
  {
    var i := |s| - |l|;
    var j := i + |r|;
    assert |s[i..j]| == |r|;
    forall k | 0 <= k < |r|
      ensures s[i..j][k] == r[k]
    {
      assert r[k] == l[k] == s[i + k];
    }
    forall k | j <= k < |s|
      ensures IsSpace(s[k])
    {
      assert s[k] == l[k - i];
    }
  }

  /** Stripping text that has no whitespace, followed by whitespace, gives the text back. */
  lemma StripSpaceFree(t: string, w: string)
    requires NoSpace(t)
    requires forall i :: 0 <= i < |w| ==> IsSpace(w[i])
    ensures Strip(t + w) == t
  {
    var s := t + w;
    assert forall i :: 0 <= i < |t| ==> s[i] == t[i];
    assert forall i :: |t| <= i < |s| ==> s[i] == w[i - |t|];
    var l := LStripSpace(s);
    if t == [] {
      assert forall i :: 0 <= i < |s| ==> IsSpace(s[i]);
    } else {
      assert s[0] == t[0];
      assert l == s;
      var r := RStripSpace(l);
      assert s[|t| - 1] == t[|t| - 1];
      assert forall i :: 0 <= i < |r| ==> r[i] == s[i];
      assert |r| == |t|;
      assert r == t;
    }
  }

  /** Length of the leading run of non-whitespace characters. */
  function WordLength(s: string): (n: nat)
    ensures n <= |s|
    ensures forall i :: 0 <= i < n ==> !IsSpace(s[i])
    ensures n < |s| ==> IsSpace(s[n])
  {
    if s == [] || IsSpace(s[0]) then 0 else 1 + WordLength(s[1..])
  }

  /** `s.split()` with no separator: the maximal runs of non-whitespace characters, in order,
      with no empty entries. */
  function SplitWhitespace(s: string): (words: seq<string>)
    ensures forall k :: 0 <= k < |words| ==> words[k] != [] && NoSpace(words[k])
    decreases |s|
  {
    var t := LStripSpace(s);
    if t == [] then []
    else
      var n := WordLength(t);
      FirstWord(t);
      var rest := SplitWhitespace(t[n..]);
      WordsCons(t[..n], rest);
      [t[..n]] + rest
  }

  lemma WordsCons(w: string, rest: seq<string>)
    requires w != [] && NoSpace(w)
    requires forall k :: 0 <= k < |rest| ==> rest[k] != [] && NoSpace(rest[k])
    ensures forall k :: 0 <= k < |rest| + 1 ==> ([w] + rest)[k] != [] && NoSpace(([w] + rest)[k])
  {
    var ws := [w] + rest;
    forall k | 0 <= k < |ws| ensures ws[k] != [] && NoSpace(ws[k]) {
      if k > 0 {
        assert ws[k] == rest[k - 1];
      }
    }
  }

  /** The first word of text that does not start with whitespace is not empty and has
      no whitespace. */
  lemma FirstWord(t: string)
    requires t != [] && !IsSpace(t[0])
    ensures WordLength(t) >= 1 && NoSpace(t[..WordLength(t)])
  {
    var n := WordLength(t);
    assert forall i :: 0 <= i < n ==> t[..n][i] == t[i];
  }

  /** A leading whitespace character does not change `split()`. */
  lemma SplitWhitespaceSkipSpace(c: char, x: string)
    requires IsSpace(c)
    ensures SplitWhitespace([c] + x) == SplitWhitespace(x)
  {
    assert ([c] + x)[1..] == x;
  }

  /** The non-empty entries of `ws`, in order. */
  function NonEmptyOnly(ws: seq<string>): seq<string> {
    if ws == [] then []
    else (if ws[0] == "" then [] else [ws[0]]) + NonEmptyOnly(ws[1..])
  }

  /** `split()` of lines joined by "\n" gives the non-empty lines: blank lines vanish. */
  lemma {:induction false} SplitWhitespaceOfJoinLines(ws: seq<string>)
    requires forall k :: 0 <= k < |ws| ==> NoSpace(ws[k])
    ensures SplitWhitespace(JoinLines(ws)) == NonEmptyOnly(ws)
  {
    if ws != [] {
      var w, rest := ws[0], JoinLines(ws[1..]);
      var s := JoinLines(ws);
      assert s == w + ("\n" + rest);
      SplitWhitespaceOfJoinLines(ws[1..]);
      SplitWhitespaceSkipSpace('\n', rest);
      if w == "" {
        assert s == ['\n'] + rest;
      } else {
        assert forall i :: 0 <= i < |w| ==> s[i] == w[i];
        assert s[|w|] == '\n';
        assert LStripSpace(s) == s;
        assert WordLength(s) == |w|;
        assert s[..|w|] == w;
        assert s[|w|..] == ['\n'] + rest;
      }
    }
  }

  /** The text of whitespace-free lines joined by "\n" holds no carriage return. */
  lemma {:induction false} JoinLinesNoReturn(ws: seq<string>)
    requires forall k :: 0 <= k < |ws| ==> NoSpace(ws[k])
    ensures '\r' !in JoinLines(ws)
  {
    if ws != [] {
      JoinLinesNoReturn(ws[1..]);
      NoSpaceNoLineBreak(ws[0]);
    }
  }

  /** Length of the leading run of characters that are not line breaks. */
  function LineLength(s: string): (n: nat)
    ensures n <= |s|
    ensures forall i :: 0 <= i < n ==> !IsLineBreak(s[i])
    ensures n < |s| ==> IsLineBreak(s[n])
  {
    if s == [] || IsLineBreak(s[0]) then 0 else 1 + LineLength(s[1..])
  }

  lemma LineLengthAtBreak(w: string, c: char, t: string)
    requires NoLineBreak(w) && IsLineBreak(c)
    ensures LineLength(w + [c] + t) == |w|
  {
    var s := w + [c] + t;
    assert forall i :: 0 <= i < |w| ==> s[i] == w[i];
    assert s[|w|] == c;
  }

  /** `s.splitlines()`: the lines of `s` without their terminators ("\r\n" is one
      terminator); a final terminator does not start an empty last line. */
  function SplitLines(s: string): (lines: seq<string>)
    ensures forall k :: 0 <= k < |lines| ==> NoLineBreak(lines[k])
    decreases |s|
  {
    if s == [] then []
    else
      var n := LineLength(s);
      if n == |s| then [s]
      else
        var b := if s[n] == '\r' && n + 1 < |s| && s[n + 1] == '\n' then 2 else 1;
        [s[..n]] + SplitLines(s[n + b..])
  }

  /** The lines `ws`, each followed by "\n". */
  function JoinLines(ws: seq<string>): string {
    if ws == [] then "" else ws[0] + "\n" + JoinLines(ws[1..])
  }

  /** Splitting the text of lines joined by "\n" gives the lines back. */
  lemma {:induction false} SplitLinesOfJoinLines(ws: seq<string>)
    requires forall k :: 0 <= k < |ws| ==> NoLineBreak(ws[k])
    ensures SplitLines(JoinLines(ws)) == ws
  {
    if ws != [] {
      assert JoinLines(ws) == ws[0] + "\n" + JoinLines(ws[1..]);
      SplitLinesOfLine(ws[0], JoinLines(ws[1..]));
      SplitLinesOfJoinLines(ws[1..]);
      assert ws == [ws[0]] + ws[1..];
    }
  }

  /** A line ended by "\n" is the first line of `splitlines()`. */
  lemma {:induction false} SplitLinesOfLine(w: string, rest: string)
    requires NoLineBreak(w)
    ensures SplitLines(w + "\n" + rest) == [w] + SplitLines(rest)
  {
    var s := w + "\n" + rest;
    assert s == w + ['\n'] + rest;
    LineLengthAtBreak(w, '\n', rest);
    assert s[|w|] == '\n';
    assert s[..|w|] == w;
    assert s[|w| + 1..] == rest;
  }

  // ---------------------------------------------------------------------------
  // Universal-newline reading (text files opened without a `newline` argument)
  // ---------------------------------------------------------------------------

  /** The text read from raw characters `s`: "\r\n" and a lone "\r" both read as "\n". */
  function Translate(s: string): (r: string)
    ensures '\r' !in r
    ensures |r| <= |s|
  {
    if s == [] then []
    else if s[0] == '\r' then
      if |s| > 1 && s[1] == '\n' then "\n" + Translate(s[2..]) else "\n" + Translate(s[1..])
    else [s[0]] + Translate(s[1..])
  }

  /** Text without a carriage return reads as itself. */
  lemma {:induction false} TranslateNoReturn(s: string)
    requires '\r' !in s
    ensures Translate(s) == s
  {
    if s != [] {
      assert s == [s[0]] + s[1..];
      TranslateNoReturn(s[1..]);
    }
  }

  /** Index of the first "\n" or "\r" in `s`, or `|s|`. */
  function LineEnd(s: string): (n: nat)
    ensures n <= |s|
    ensures forall i :: 0 <= i < n ==> s[i] != '\n' && s[i] != '\r'
    ensures n < |s| ==> s[n] == '\n' || s[n] == '\r'
  {
    if s == [] || s[0] == '\n' || s[0] == '\r' then 0 else 1 + LineEnd(s[1..])
  }

  /** One `readline()` on raw characters `s`: the line as it is read (its terminator
      read as "\n") and the number of raw characters it consumed. */
  function ReadLine(s: string): (r: (string, nat))
    ensures r.1 <= |s|
  {
    var n := LineEnd(s);
    if n == |s| then (s, |s|)
    else if s[n] == '\r' && n + 1 < |s| && s[n + 1] == '\n' then (s[..n] + "\n", n + 2)
    else (s[..n] + "\n", n + 1)
  }

  /** A first line free of line ends is read up to and including its "\n". */
  lemma ReadLineOfLine(t: string, rest: string)
    requires '\n' !in t && '\r' !in t
    ensures ReadLine(t + "\n" + rest) == (t + "\n", |t| + 1)
  {
    var s := t + "\n" + rest;
    assert forall i :: 0 <= i < |t| ==> s[i] == t[i];
    assert s[|t|] == '\n';
    assert s[..|t|] == t;
  }

  // ---------------------------------------------------------------------------
  // Joining and splitting on a separator
  // ---------------------------------------------------------------------------

  /** `sep.join(parts)` */
  function Join(parts: seq<string>, sep: string): (r: string)
    ensures parts == [] ==> r == ""
    ensures parts != [] ==> StartsWith(r, parts[0])
  {
    if |parts| == 0 then ""
    else if |parts| == 1 then parts[0]
    else
      var r := parts[0] + sep + Join(parts[1..], sep);
      assert r[..|parts[0]|] == parts[0];
      r
  }

  lemma JoinTwo(a: string, b: string, sep: string)
    ensures Join([a, b], sep) == a + sep + b
  {
    assert [a, b][1..] == [b];
    assert Join([b], sep) == b;
  }

  lemma JoinThree(a: string, b: string, c: string, sep: string)
    ensures Join([a, b, c], sep) == a + sep + b + sep + c
  {
    assert [a, b, c][1..] == [b, c];
    JoinTwo(b, c, sep);
  }

  /** Index of the first `c` in `s`, or `|s|`. */
  function IndexOf(s: string, c: char): (n: nat)
    ensures n <= |s|
    ensures forall i :: 0 <= i < n ==> s[i] != c
    ensures n < |s| ==> s[n] == c
  {
    if s == [] || s[0] == c then 0 else 1 + IndexOf(s[1..], c)
  }

  /** `s.split(c)` for a one-character separator: never empty, and no part holds `c`. */
  function SplitOn(s: string, c: char): (parts: seq<string>)
    ensures |parts| >= 1
    ensures forall k :: 0 <= k < |parts| ==> c !in parts[k]
    decreases |s|
  {
    var n := IndexOf(s, c);
    if n == |s| then [s] else [s[..n]] + SplitOn(s[n + 1..], c)
  }

  lemma SplitOnStep(p: string, c: char, rest: string)
    requires c !in p
    ensures SplitOn(p + [c] + rest, c) == [p] + SplitOn(rest, c)
  {
    var s := p + [c] + rest;
    assert forall i :: 0 <= i < |p| ==> s[i] == p[i];
    assert s[|p|] == c;
    assert s[..|p|] == p;
    assert s[|p| + 1..] == rest;
  }

  /** Splitting a join on the same one-character separator gives the parts back,
      provided no part contains the separator. */
  lemma {:induction false} SplitOnOfJoin(parts: seq<string>, c: char)
    requires |parts| >= 1
    requires forall k :: 0 <= k < |parts| ==> c !in parts[k]
    ensures SplitOn(Join(parts, [c]), c) == parts
  {
    if |parts| == 1 {
      var s := parts[0];
      assert IndexOf(s, c) == |s|;
    } else {
      var rest := Join(parts[1..], [c]);
      assert Join(parts, [c]) == parts[0] + [c] + rest;
      SplitOnStep(parts[0], c, rest);
      SplitOnOfJoin(parts[1..], c);
      assert parts == [parts[0]] + parts[1..];
    }
  }

  // ---------------------------------------------------------------------------
  // pathlib (POSIX paths)
  // ---------------------------------------------------------------------------

  /** The last component that is neither empty nor "." (pathlib drops both), or "". */
  function LastComponent(comps: seq<string>): (name: string)
    ensures name == "" || name in comps
    ensures name != "."
  {
    if comps == [] then ""
    else
      var last := comps[|comps| - 1];
      if last == "" || last == "." then LastComponent(comps[..|comps| - 1]) else last
  }

  /** `PurePosixPath(p).name` */
  function PathName(p: string): (name: string)
    ensures '/' !in name
  {
    LastComponent(SplitOn(p, '/'))
  }

  /** Index of the last `c` in `s`, or -1 (`s.rfind(c)`). */
  function LastIndexOf(s: string, c: char): (i: int)
    ensures -1 <= i < |s|
    ensures i >= 0 ==> s[i] == c
    ensures forall j :: i < j < |s| ==> s[j] != c
  {
    if s == [] then -1
    else if s[|s| - 1] == c then |s| - 1
    else
      var i := LastIndexOf(s[..|s| - 1], c);
      assert forall j :: i < j < |s| - 1 ==> s[j] == s[..|s| - 1][j];
      i
  }

  /** `PurePosixPath(p).suffix` as pathlib computes it up to Python 3.13: the part of the
      name from its last "." on, when that "." is neither the first nor the last character
      of the name; otherwise "". */
  function PathSuffix(p: string): (ext: string)
    ensures var name := PathName(p);
      && |ext| <= |name| && ext == name[|name| - |ext|..]
      && (ext != "" ==> |ext| >= 2 && ext[0] == '.' && '.' !in ext[1..] && |ext| < |name|)
      && (ext == "" ==> forall i :: 0 < i < |name| - 1 && name[i] == '.' ==> '.' in name[i + 1..])
  {
    var name := PathName(p);
    var i := LastIndexOf(name, '.');
    if 0 < i < |name| - 1 then name[i..] else ""
  }

  /** A plain file name is its own `.name`. */
  lemma PathNameOfPlain(s: string)
    requires s != "" && s != "." && '/' !in s
    ensures PathName(s) == s
  {
    assert IndexOf(s, '/') == |s|;
    assert SplitOn(s, '/') == [s];
  }

  /** A dot-free stem followed by the suffix of any path has that suffix: renaming a
      file to `stem + suffix` keeps its extension. */
  lemma {:induction false} SuffixOfStemAndSuffix(stem: string, p: string)
    requires stem != "" && '.' !in stem && '/' !in stem
    ensures PathSuffix(stem + PathSuffix(p)) == PathSuffix(p)
  {
    var ext := PathSuffix(p);
    assert '/' !in ext by {
      var pn := PathName(p);
      assert forall k :: 0 <= k < |ext| ==> ext[k] == pn[|pn| - |ext| + k];
    }
    SuffixOfStemAndExtension(stem, ext);
  }

  /** The suffix of a dot-free stem followed by an extension (or by nothing). */
  lemma {:induction false} SuffixOfStemAndExtension(stem: string, ext: string)
    requires stem != "" && '.' !in stem && '/' !in stem && '/' !in ext
    requires ext != "" ==> |ext| >= 2 && ext[0] == '.' && '.' !in ext[1..]
    ensures PathSuffix(stem + ext) == ext
  {
    var name := stem + ext;
    PlainName(stem, ext);
    var i := LastIndexOf(name, '.');
    LastDotOfStemAndExtension(stem, ext);
    if ext != "" {
      assert name[|stem|..] == ext;
    }
  }

  lemma {:induction false} PlainName(stem: string, ext: string)
    requires stem != "" && '.' !in stem && '/' !in stem && '/' !in ext
    ensures PathName(stem + ext) == stem + ext
  {
    var name := stem + ext;
    assert '/' !in name by {
      forall k | 0 <= k < |name|
        ensures name[k] != '/'
      {
        if k < |stem| {
          assert name[k] == stem[k];
        } else {
          assert name[k] == ext[k - |stem|];
        }
      }
    }
    assert name != "." by {
      assert name[0] == stem[0];
    }
    PathNameOfPlain(name);
  }

  lemma {:induction false} LastDotOfStemAndExtension(stem: string, ext: string)
    requires '.' !in stem
    requires ext != "" ==> ext[0] == '.' && '.' !in ext[1..]
    ensures LastIndexOf(stem + ext, '.') == if ext == "" then -1 else |stem|
  {
    var name := stem + ext;
    var i := LastIndexOf(name, '.');
    if ext == "" {
      assert name == stem;
    } else {
      assert name[|stem|] == '.';
      assert forall k :: |stem| < k < |name| ==> name[k] == ext[1..][k - |stem| - 1];
    }
  }

  /** Python list indexing: a negative index counts from the end; None where an
      IndexError is raised. */
  function PyIndex(i: int, n: nat): (r: Option<nat>)
    ensures r.Some? <==> -(n as int) <= i < n
    ensures r.Some? ==> r.value < n && (if i >= 0 then r.value == i else r.value == n + i)
  {
    if 0 <= i < n then Some(i) else if -(n as int) <= i < 0 then Some(n + i) else None
  }

  // ---------------------------------------------------------------------------
  // Integers as decimal text
  // ---------------------------------------------------------------------------

  function DigitChar(d: nat): char
    requires d < 10
  {
    "0123456789"[d]
  }

  /** The decimal digits of `n`, most significant first, without leading zeros. */
  function Digits(n: nat): (s: string)
    ensures s != [] && forall i :: 0 <= i < |s| ==> '0' <= s[i] <= '9'
  {
    if n < 10 then [DigitChar(n)] else Digits(n / 10) + [DigitChar(n % 10)]
  }

  /** `f"{n}"` / `str(n)` for an integer. */
  function DecimalString(n: int): (s: string)
    ensures s != [] && ':' !in s && '/' !in s
  {
    if n < 0 then "-" + Digits(-n) else Digits(n)
  }

  /** `int(s)` for text of decimal digits. */
  function ParseDigits(s: string): int
    requires forall i :: 0 <= i < |s| ==> '0' <= s[i] <= '9'
  {
    if s == [] then 0 else 10 * ParseDigits(s[..|s| - 1]) + (s[|s| - 1] as int - '0' as int)
  }

  /** `int(s)` for text made by `DecimalString`. */
  function ParseDecimal(s: string): int
    requires DecimalText(s)
  {
    var negative := s[0] == '-';
    var magnitude := ParseDigits(if negative then s[1..] else s);
    if negative then -magnitude else magnitude
  }

  lemma {:induction false} ParseDigitsOfDigits(n: nat)
    ensures ParseDigits(Digits(n)) == n
  {
    if n >= 10 {
      var s := Digits(n);
      assert s[..|s| - 1] == Digits(n / 10);
      ParseDigitsOfDigits(n / 10);
    }
  }

  /** The text `DecimalString` makes is what `ParseDecimal` accepts. */
  predicate DecimalText(s: string) {
    && s != [] && (s[0] == '-' || '0' <= s[0] <= '9')
    && (s[0] == '-' ==> |s| >= 2)
    && (forall i :: 0 < i < |s| ==> '0' <= s[i] <= '9')
  }

  /** Reading back the decimal text of an integer gives the integer. */
  lemma {:induction false} ParseDecimalOfDecimalString(n: int)
    ensures DecimalText(DecimalString(n)) && ParseDecimal(DecimalString(n)) == n
  {
    if n < 0 {
      NegativeDecimal(n);
    } else {
      NonNegativeDecimal(n);
    }
  }

  lemma {:induction false} NonNegativeDecimal(n: int)
    requires n >= 0
    ensures DecimalText(DecimalString(n)) && ParseDecimal(DecimalString(n)) == n
  {
    var s := DecimalString(n);
    assert s == Digits(n);
    ParseDigitsOfDigits(n);
  }

  lemma {:induction false} NegativeDecimal(n: int)
    requires n < 0
    ensures DecimalText(DecimalString(n)) && ParseDecimal(DecimalString(n)) == n
  {
    var m: nat := -n;
    var d := Digits(m);
    DigitsParse(m);
    var s := DecimalString(n);
    assert s == "-" + d;
    assert s[0] == '-' && s[1..] == d;
    assert forall i :: 0 < i < |s| ==> s[i] == d[i - 1];
    NegativeParse(s, d);
  }

  lemma {:induction false} DigitsParse(m: nat)
    ensures var d := Digits(m); (forall i :: 0 <= i < |d| ==> '0' <= d[i] <= '9') && ParseDigits(d) == m
  {
    ParseDigitsOfDigits(m);
  }

  lemma {:induction false} NegativeParse(s: string, d: string)
    requires DecimalText(s) && s[0] == '-' && s[1..] == d
    ensures ParseDecimal(s) == -ParseDigits(d)
  {
  }
}
