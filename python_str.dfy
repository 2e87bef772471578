/**
 * The Python `str` operations the recipe builder relies on, written out for
 * `string` (`seq<char>`): the whitespace and line-break classes, `strip()`,
 * `split(sep)`, `split()`, `splitlines()`, `sep.join(...)` and `lower()`.
 */
module PyStr {

  /** Characters for which Python's `str.isspace()` holds; `strip()`, `split()`
      and the regular-expression class `\s` all use this set. */
  predicate IsSpace(c: char) {
    var n := c as int;
    (0x09 <= n <= 0x0D) || (0x1C <= n <= 0x20) || n == 0x85 || n == 0xA0
    || n == 0x1680 || (0x2000 <= n <= 0x200A) || n == 0x2028 || n == 0x2029
    || n == 0x202F || n == 0x205F || n == 0x3000
  }

  /** Line boundaries recognised by `str.splitlines()` ("\r\n" counts as one). */
  predicate IsLineBreak(c: char) {
    var n := c as int;
    (0x0A <= n <= 0x0D) || (0x1C <= n <= 0x1E) || n == 0x85 || n == 0x2028 || n == 0x2029
  }

  predicate AllSpace(s: string) {
    forall i :: 0 <= i < |s| ==> IsSpace(s[i])
  }

  predicate NoSpace(s: string) {
    forall i :: 0 <= i < |s| ==> !IsSpace(s[i])
  }

  predicate NoLineBreak(s: string) {
    forall i :: 0 <= i < |s| ==> !IsLineBreak(s[i])
  }

  /** No whitespace at either end: the shape of every result of `strip()`. */
  predicate IsStripped(s: string) {
    s == "" || (!IsSpace(s[0]) && !IsSpace(s[|s| - 1]))
  }

  predicate EndsWith(s: string, suffix: string) {
    |suffix| <= |s| && s[|s| - |suffix|..] == suffix
  }

  // ---------------------------------------------------------------------------
  // Scanning helpers

  /** Length of the run of whitespace that starts `s`. */
  function LeadingSpaces(s: string): (n: nat)
    ensures n <= |s| && AllSpace(s[..n])
    ensures n < |s| ==> !IsSpace(s[n])
  {
    if s == "" || !IsSpace(s[0]) then 0
    else
      var m := LeadingSpaces(s[1..]);
      assert s[..m + 1] == [s[0]] + s[1..][..m];
      m + 1
  }

  /** Length of the run of whitespace that ends `s`. */
  function TrailingSpaces(s: string): (n: nat)
    ensures n <= |s| && AllSpace(s[|s| - n..])
    ensures n < |s| ==> !IsSpace(s[|s| - n - 1])
  {
    if s == "" || !IsSpace(s[|s| - 1]) then 0
    else
      var t := s[..|s| - 1];
      var m := TrailingSpaces(t);
      assert s[|s| - (m + 1)..] == t[|t| - m..] + [s[|s| - 1]];
      m + 1
  }

  /** Length of the run of non-whitespace that starts `s`. */
  function WordLength(s: string): (n: nat)
    ensures n <= |s| && NoSpace(s[..n])
    ensures n < |s| ==> IsSpace(s[n])
  {
    if s == "" || IsSpace(s[0]) then 0
    else
      var m := WordLength(s[1..]);
      assert s[..m + 1] == [s[0]] + s[1..][..m];
      m + 1
  }

  /** Position of the first `c` in `s`, or `|s|` when there is none. */
  function IndexOf(s: string, c: char): (n: nat)
    ensures n <= |s| && c !in s[..n]
    ensures n < |s| ==> s[n] == c
  {
    if s == "" || s[0] == c then 0
    else
      var m := IndexOf(s[1..], c);
      assert s[..m + 1] == [s[0]] + s[1..][..m];
      m + 1
  }

  /** Length of the text before the first line break of `s`. */
  function LineLength(s: string): (n: nat)
    ensures n <= |s| && NoLineBreak(s[..n])
    ensures n < |s| ==> IsLineBreak(s[n])
  {
    if s == "" || IsLineBreak(s[0]) then 0
    else
      var m := LineLength(s[1..]);
      assert s[..m + 1] == [s[0]] + s[1..][..m];
      m + 1
  }

  // ---------------------------------------------------------------------------
  // strip()

  /** `s.strip()`: `s` without its leading and trailing whitespace. */
  function Strip(s: string): (r: string)
    ensures IsStripped(r)
  {
    var a := LeadingSpaces(s);
    var t := s[a..];
    var b := TrailingSpaces(t);
    var r := t[..|t| - b];
    StripShape(s, a, t, b, r);
    r
  }

  lemma {:induction false} StripShape(s: string, a: nat, t: string, b: nat, r: string)
    requires a == LeadingSpaces(s) && t == s[a..]
    requires b == TrailingSpaces(t) && r == t[..|t| - b]
    ensures IsStripped(r)
    ensures s == s[..a] + r + t[|t| - b..]
  {
    StripPieces(s, a, t, b, r);
    if r != "" {
      StripFront(s, a, t, b, r);
      StripBack(t, b, r);
    }
  }

  /** `strip()` removes only whitespace, and only at the two ends. */
  lemma {:induction false} StripPadding(s: string)
    ensures var a, r := LeadingSpaces(s), Strip(s);
            && a + |r| <= |s|
            && s == s[..a] + r + s[a + |r|..]
            && AllSpace(s[..a]) && AllSpace(s[a + |r|..])
  {
    var a := LeadingSpaces(s);
    var t := s[a..];
    var b := TrailingSpaces(t);
    StripShape(s, a, t, b, Strip(s));
    assert t[|t| - b..] == s[a + |Strip(s)|..];
  }

  lemma {:induction false} StripPieces(s: string, a: nat, t: string, b: nat, r: string)
    requires a <= |s| && t == s[a..]
    requires b <= |t| && r == t[..|t| - b]
    ensures s == s[..a] + r + t[|t| - b..]
  {
    assert t == r + t[|t| - b..];
    assert s == s[..a] + t;
  }

  lemma {:induction false} StripFront(s: string, a: nat, t: string, b: nat, r: string)
    requires a == LeadingSpaces(s) && t == s[a..]
    requires b <= |t| && r == t[..|t| - b] && r != ""
    ensures !IsSpace(r[0])
  {
    assert a < |s|;
    assert r[0] == s[a];
  }

  lemma {:induction false} StripBack(t: string, b: nat, r: string)
    requires b == TrailingSpaces(t) && r == t[..|t| - b] && r != ""
    ensures !IsSpace(r[|r| - 1])
  {
    assert r[|r| - 1] == t[|t| - b - 1];
  }

  lemma {:induction false} LeadingSpacesAfterSpace(p: string, t: string)
    requires AllSpace(p)
    ensures LeadingSpaces(p + t) == |p| + LeadingSpaces(t)
    decreases |p|
  {
    if p != "" {
      assert (p + t)[1..] == p[1..] + t;
      LeadingSpacesAfterSpace(p[1..], t);
    } else {
      assert p + t == t;
    }
  }

  lemma {:induction false} TrailingSpacesBeforeSpace(t: string, q: string)
    requires AllSpace(q)
    ensures TrailingSpaces(t + q) == TrailingSpaces(t) + |q|
    decreases |q|
  {
    if q != "" {
      var q' := q[..|q| - 1];
      assert (t + q)[..|t + q| - 1] == t + q';
      TrailingSpacesBeforeSpace(t, q');
    } else {
      assert t + q == t;
    }
  }

  /** `strip()` is determined by its two properties: whatever stripped text
      sits between a whitespace prefix and a whitespace suffix is the result. */
  lemma {:induction false} StripOfPadded(p: string, r: string, q: string)
    requires AllSpace(p) && AllSpace(q) && IsStripped(r)
    ensures Strip(p + r + q) == r
  {
    var s := p + r + q;
    assert s == p + (r + q);
    LeadingSpacesAfterSpace(p, r + q);
    if r == "" {
      assert r + q == q;
      assert AllSpace(q[..]);
      LeadingSpacesAfterSpace(q, "");
      assert q + "" == q;
    } else {
      assert LeadingSpaces(r + q) == 0;
      var t := s[|p|..];
      assert t == r + q;
      TrailingSpacesBeforeSpace(r, q);
      assert TrailingSpaces(r) == 0;
      assert t[..|t| - |q|] == r;
    }
  }

  /** Whitespace in front of a stripped text is all `strip()` removes. */
  lemma {:induction false} StripLeadingPad(pad: string, s: string)
    requires AllSpace(pad) && IsStripped(s)
    ensures Strip(pad + s) == s
  {
    StripOfPadded(pad, s, "");
    assert pad + s + "" == pad + s;
  }

  lemma {:induction false} StripStripped(s: string)
    requires IsStripped(s)
    ensures Strip(s) == s
  {
    StripOfPadded("", s, "");
    assert "" + s + "" == s;
  }

  lemma {:induction false} StripIdempotent(s: string)
    ensures Strip(Strip(s)) == Strip(s)
  {
    StripStripped(Strip(s));
  }

  lemma {:induction false} StripEmptyIffAllSpace(s: string)
    ensures Strip(s) == "" <==> AllSpace(s)
  {
    if AllSpace(s) {
      StripOfPadded(s, "", "");
      assert s + "" + "" == s;
    }
    var a := LeadingSpaces(s);
    var t := s[a..];
    var b := TrailingSpaces(t);
    StripShape(s, a, t, b, Strip(s));
    if Strip(s) == "" {
      AllSpaceConcat(s[..a], t[|t| - b..]);
      assert s == s[..a] + t[|t| - b..];
    }
  }

  lemma {:induction false} AllSpaceConcat(p: string, q: string)
    requires AllSpace(p) && AllSpace(q)
    ensures AllSpace(p + q)
  {
    forall i | 0 <= i < |p + q| ensures IsSpace((p + q)[i]) {
      if i < |p| { assert (p + q)[i] == p[i]; } else { assert (p + q)[i] == q[i - |p|]; }
    }
  }

  // ---------------------------------------------------------------------------
  // split(sep) and sep.join(...)

  /** `sep.join(parts)`. */
  function Join(parts: seq<string>, sep: string): string
    decreases |parts|
  {
    if |parts| == 0 then ""
    else if |parts| == 1 then parts[0]
    else parts[0] + sep + Join(parts[1..], sep)
  }

  /** `s.split(sep)` for a one-character separator: the pieces between the
      separators, empty ones included; never an empty list. */
  function Split(s: string, sep: char): (r: seq<string>)
    ensures |r| >= 1
    ensures forall i :: 0 <= i < |r| ==> sep !in r[i]
    decreases |s|
  {
    var n := IndexOf(s, sep);
    if n == |s| then [s] else [s[..n]] + Split(s[n + 1..], sep)
  }

  /** Joining the pieces with the separator gives back the text. */
  lemma {:induction false} JoinSplit(s: string, sep: char)
    ensures Join(Split(s, sep), [sep]) == s
    decreases |s|
  {
    var n := IndexOf(s, sep);
    if n < |s| {
      JoinSplit(s[n + 1..], sep);
      assert s == s[..n] + [sep] + s[n + 1..];
    }
  }

  /** Splitting pieces joined by the separator gives back the pieces. */
  lemma {:induction false} SplitJoin(parts: seq<string>, sep: char)
    requires |parts| >= 1
    requires forall i :: 0 <= i < |parts| ==> sep !in parts[i]
    ensures Split(Join(parts, [sep]), sep) == parts
    decreases |parts|
  {
    var s := Join(parts, [sep]);
    var p := parts[0];
    if |parts| == 1 {
      IndexOfAbsent(p, sep);
    } else {
      var rest := Join(parts[1..], [sep]);
      assert s == p + ([sep] + rest);
      IndexOfBefore(p, [sep] + rest, sep);
      assert s[..|p|] == p && s[|p| + 1..] == rest;
      SplitJoin(parts[1..], sep);
      assert Split(s, sep) == [p] + Split(rest, sep);
      assert parts == [p] + parts[1..];
    }
  }

  lemma {:induction false} IndexOfAbsent(s: string, c: char)
    requires c !in s
    ensures IndexOf(s, c) == |s|
    decreases |s|
  {
    if s != "" {
      assert s[0] in s;
      assert c !in s[1..] by {
        forall i | 0 <= i < |s[1..]| ensures s[1..][i] != c { assert s[1..][i] == s[i + 1]; }
      }
      IndexOfAbsent(s[1..], c);
    }
  }

  lemma {:induction false} IndexOfBefore(p: string, t: string, c: char)
    requires c !in p && t != [] && t[0] == c
    ensures IndexOf(p + t, c) == |p|
    decreases |p|
  {
    if p == "" {
      assert p + t == t;
    } else {
      assert (p + t)[0] == p[0] && p[0] in p;
      assert (p + t)[1..] == p[1..] + t;
      assert c !in p[1..] by {
        forall i | 0 <= i < |p[1..]| ensures p[1..][i] != c { assert p[1..][i] == p[i + 1]; }
      }
      IndexOfBefore(p[1..], t, c);
    }
  }

  // ---------------------------------------------------------------------------
  // split() with no argument

  /** `s.split()`: the maximal runs of non-whitespace, in order. */
  function Words(s: string): (r: seq<string>)
    ensures forall i :: 0 <= i < |r| ==> r[i] != "" && NoSpace(r[i])
    decreases |s|
  {
    if s == "" then []
    else if IsSpace(s[0]) then Words(s[1..])
    else
      var n := WordLength(s);
      [s[..n]] + Words(s[n..])
  }

  /** Tokens separated by whitespace gaps: `gaps[0] + tokens[0] + gaps[1] + ...
      + tokens[n-1] + gaps[n]`, where the outer gaps may be empty. */
  function Spaced(tokens: seq<string>, gaps: seq<string>): string
    requires |gaps| == |tokens| + 1
    decreases |tokens|
  {
    if tokens == [] then gaps[0]
    else gaps[0] + tokens[0] + Spaced(tokens[1..], gaps[1..])
  }

  predicate WellSpaced(tokens: seq<string>, gaps: seq<string>) {
    && |gaps| == |tokens| + 1
    && (forall i :: 0 <= i < |tokens| ==> tokens[i] != "" && NoSpace(tokens[i]))
    && (forall i :: 0 <= i < |gaps| ==> AllSpace(gaps[i]))
    && (forall i :: 0 < i < |tokens| ==> gaps[i] != "")
  }

  lemma {:induction false} WordsAfterSpace(p: string, s: string)
    requires AllSpace(p)
    ensures Words(p + s) == Words(s)
    decreases |p|
  {
    if p != "" {
      assert (p + s)[1..] == p[1..] + s;
      WordsAfterSpace(p[1..], s);
    } else {
      assert p + s == s;
    }
  }

  lemma {:induction false} WordLengthOfToken(t: string, rest: string)
    requires NoSpace(t)
    requires rest == "" || IsSpace(rest[0])
    ensures WordLength(t + rest) == |t|
    decreases |t|
  {
    if t == "" {
      assert t + rest == rest;
    } else {
      assert (t + rest)[0] == t[0];
      assert (t + rest)[1..] == t[1..] + rest;
      WordLengthOfToken(t[1..], rest);
    }
  }

  lemma {:induction false} WordsAfterToken(t: string, rest: string)
    requires t != "" && NoSpace(t)
    requires rest == "" || IsSpace(rest[0])
    ensures Words(t + rest) == [t] + Words(rest)
  {
    var s := t + rest;
    WordLengthOfToken(t, rest);
    assert s[..|t|] == t && s[|t|..] == rest;
  }

  /** `split()` recovers the tokens however long and of whatever kind the
      whitespace gaps between them are. */
  lemma {:induction false} WordsOfSpaced(tokens: seq<string>, gaps: seq<string>)
    requires WellSpaced(tokens, gaps)
    ensures Words(Spaced(tokens, gaps)) == tokens
    decreases |tokens|
  {
    if tokens == [] {
      WordsAfterSpace(gaps[0], "");
      assert gaps[0] + "" == gaps[0];
    } else {
      var rest := Spaced(tokens[1..], gaps[1..]);
      assert WellSpaced(tokens[1..], gaps[1..]);
      WordsOfSpaced(tokens[1..], gaps[1..]);
      assert rest == "" || IsSpace(rest[0]) by {
        if tokens[1..] == [] {
          assert rest == gaps[1];
        } else {
          assert gaps[1] != "";
          assert rest == gaps[1] + (tokens[1..][0] + Spaced(tokens[2..], gaps[2..]));
        }
      }
      assert Spaced(tokens, gaps) == gaps[0] + (tokens[0] + rest);
      WordsAfterSpace(gaps[0], tokens[0] + rest);
      WordsAfterToken(tokens[0], rest);
    }
  }

  // ---------------------------------------------------------------------------
  // splitlines()

  /** `s.splitlines()`: the lines of `s` without their line breaks; a final
      line break does not start one more (empty) line. */
  function SplitLines(s: string): (r: seq<string>)
    ensures forall i :: 0 <= i < |r| ==> NoLineBreak(r[i])
    decreases |s|
  {
    if s == "" then []
    else
      var n := LineLength(s);
      if n == |s| then [s]
      else
        var width := if s[n] == '\r' && n + 1 < |s| && s[n + 1] == '\n' then 2 else 1;
        [s[..n]] + SplitLines(s[n + width..])
  }

  /** The line endings `splitlines()` recognises, as separators. */
  predicate IsNewline(sep: string) {
    sep == "\r\n" || (|sep| == 1 && IsLineBreak(sep[0]))
  }

  lemma {:induction false} LineLengthOfLine(line: string, rest: string)
    requires NoLineBreak(line)
    requires rest == "" || IsLineBreak(rest[0])
    ensures LineLength(line + rest) == |line|
    decreases |line|
  {
    if line == "" {
      assert line + rest == rest;
    } else {
      assert (line + rest)[0] == line[0];
      assert (line + rest)[1..] == line[1..] + rest;
      LineLengthOfLine(line[1..], rest);
    }
  }

  lemma {:induction false} SplitLinesFirst(line: string, sep: string, rest: string)
    requires NoLineBreak(line) && IsNewline(sep)
    requires sep == "\r" ==> rest == "" || rest[0] != '\n'
    ensures SplitLines(line + sep + rest) == [line] + SplitLines(rest)
  {
    var s := line + sep + rest;
    assert s == line + (sep + rest);
    LineLengthOfLine(line, sep + rest);
    var n := |line|;
    assert s[..n] == line;
    assert s[n + |sep|..] == rest;
  }

  /** Lines joined by a lone carriage return do not start with a line feed,
      so the carriage return before them is not half of a "\r\n". */
  lemma {:induction false} JoinNoLeadingLineFeed(lines: seq<string>, sep: string)
    requires lines != [] && NoLineBreak(lines[0])
    ensures sep == "\r" ==> Join(lines, sep) == "" || Join(lines, sep)[0] != '\n'
  {
    var s := Join(lines, sep);
    if sep == "\r" && s != "" {
      if |lines| == 1 {
        assert s == lines[0];
        assert !IsLineBreak(s[0]);
      } else if lines[0] != "" {
        assert s == lines[0] + sep + Join(lines[1..], sep);
        assert s[0] == lines[0][0];
        assert !IsLineBreak(lines[0][0]);
      } else {
        assert s == lines[0] + sep + Join(lines[1..], sep);
        assert s[0] == '\r';
      }
    }
  }

  /** Lines joined by any one line ending split back into the same lines,
      provided the last line is not empty. */
  lemma {:induction false} SplitLinesJoin(lines: seq<string>, sep: string)
    requires IsNewline(sep)
    requires forall i :: 0 <= i < |lines| ==> NoLineBreak(lines[i])
    requires lines != [] ==> lines[|lines| - 1] != ""
    ensures SplitLines(Join(lines, sep)) == lines
    decreases |lines|
  {
    if |lines| == 1 {
      var s := lines[0];
      LineLengthOfLine(s, "");
      assert s + "" == s;
    } else if |lines| > 1 {
      var rest := Join(lines[1..], sep);
      SplitLinesJoin(lines[1..], sep);
      JoinNoLeadingLineFeed(lines[1..], sep);
      assert Join(lines, sep) == lines[0] + sep + rest;
      SplitLinesFirst(lines[0], sep, rest);
    }
  }

  // ---------------------------------------------------------------------------
  // lower()

  /** ASCII lowercasing of one character. */
  function LowerChar(c: char): char {
    if 'A' <= c <= 'Z' then (c as int + 32) as char else c
  }

  /** `s.lower()`, restricted to ASCII letters. */
  function Lower(s: string): (r: string)
    ensures |r| == |s|
  {
    seq(|s|, i requires 0 <= i < |s| => LowerChar(s[i]))
  }

  function LowerAll(ss: seq<string>): (r: seq<string>)
    ensures |r| == |ss|
  {
    seq(|ss|, i requires 0 <= i < |ss| => Lower(ss[i]))
  }

  lemma {:induction false} LowerAppend(a: string, b: string)
    ensures Lower(a + b) == Lower(a) + Lower(b)
  {
  }

  lemma {:induction false} LowerSlices(s: string, n: nat)
    requires n <= |s|
    ensures Lower(s)[..n] == Lower(s[..n]) && Lower(s)[n..] == Lower(s[n..])
  {
  }

  lemma {:induction false} WordLengthLower(s: string)
    ensures WordLength(Lower(s)) == WordLength(s)
    decreases |s|
  {
    if s != "" {
      assert Lower(s)[0] == LowerChar(s[0]);
      assert Lower(s)[1..] == Lower(s[1..]);
      WordLengthLower(s[1..]);
    }
  }

  /** Lowercasing neither creates nor removes whitespace, so `split()` after
      `lower()` gives the lowercased words. */
  lemma {:induction false} WordsLower(s: string)
    ensures Words(Lower(s)) == LowerAll(Words(s))
    decreases |s|
  {
    var l := Lower(s);
    if s != "" {
      assert l[0] == LowerChar(s[0]);
      if IsSpace(s[0]) {
        assert l[1..] == Lower(s[1..]);
        WordsLower(s[1..]);
      } else {
        var n := WordLength(s);
        WordLengthLower(s);
        LowerSlices(s, n);
        WordsLower(s[n..]);
        assert LowerAll([s[..n]] + Words(s[n..])) == [Lower(s[..n])] + LowerAll(Words(s[n..]));
      }
    }
  }
}
