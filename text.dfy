/** The string operations the scripts perform with Python built-ins: slicing,
    display truncation, `str.split` / `str.join`, `str.splitlines`,
    `str.strip`, `str.lower` and `str(int)`.  Strings are sequences of
    Unicode scalar values, as Python's are. */
module Text {

  // ---------------------------------------------------------------------
  // Slicing and truncation
  // ---------------------------------------------------------------------

  /** Python's `s[:n]` for a non-negative `n`: the first `n` elements, or all
      of `s` when it is shorter. */
  function Take<T>(s: seq<T>, n: nat): (r: seq<T>)
    ensures |r| == if |s| <= n then |s| else n
    ensures r <= s
  {
    if |s| <= n then s else s[..n]
  }

  /** The display rule `s[:n] + "..." if len(s) > n else s`. */
  function Ellipsize(s: string, n: nat): (r: string)
    ensures |s| <= n ==> r == s
    ensures |r| <= n + 3
    ensures Take(s, n) <= r
  {
    if |s| > n then s[..n] + "..." else s
  }

  /** What is displayed is either the whole text, or its first `n` characters
      followed by the three-dot marker. */
  lemma EllipsizeShape(s: string, n: nat)
    ensures Ellipsize(s, n) == s || Ellipsize(s, n) == s[..n] + "..."
    ensures |s| > n ==> |Ellipsize(s, n)| == n + 3 && Ellipsize(s, n)[n..] == "..."
  {
  }

  // ---------------------------------------------------------------------
  // Searching
  // ---------------------------------------------------------------------

  /** The index of the first `c` in `s`, or `|s|` when there is none. */
  function IndexOf(s: string, c: char): (i: nat)
    ensures i <= |s|
    ensures i < |s| ==> s[i] == c
    ensures forall k :: 0 <= k < i ==> s[k] != c
  {
    if s == [] then 0
    else if s[0] == c then 0
    else 1 + IndexOf(s[1..], c)
  }

  /** The index of the last `c` in `s`, or -1 when there is none. */
  function LastIndexOf(s: string, c: char): (i: int)
    ensures -1 <= i < |s|
    ensures 0 <= i ==> s[i] == c
    ensures forall k :: i < k < |s| ==> s[k] != c
  {
    if s == [] then -1
    else if s[|s| - 1] == c then |s| - 1
    else LastIndexOf(s[..|s| - 1], c)
  }

  /** `IndexOf` is pinned down by its properties: any index with them is it. */
  lemma IndexOfIs(s: string, c: char, i: nat)
    requires i <= |s| && (i < |s| ==> s[i] == c)
    requires forall k :: 0 <= k < i ==> s[k] != c
    ensures IndexOf(s, c) == i
  {
  }

  /** `LastIndexOf` is pinned down by its properties: any index with them is it. */
  lemma LastIndexOfIs(s: string, c: char, i: int)
    requires -1 <= i < |s| && (0 <= i ==> s[i] == c)
    requires forall k :: i < k < |s| ==> s[k] != c
    ensures LastIndexOf(s, c) == i
  {
  }

  // ---------------------------------------------------------------------
  // str.split(sep) for a one-character separator, and str.join
  // ---------------------------------------------------------------------

  /** Python's `s.split(c)`: the pieces between occurrences of `c`, empty
      pieces included; there is always at least one piece. */
  function Split(s: string, c: char): (parts: seq<string>)
    ensures |parts| >= 1
    decreases |s|
  {
    var i := IndexOf(s, c);
    if i == |s| then [s]
    else [s[..i]] + Split(s[i + 1..], c)
  }

  /** There is more than one piece exactly when `c` occurs, and no piece
      contains `c`. */
  lemma {:induction false} SplitPieces(s: string, c: char)
    ensures |Split(s, c)| == 1 <==> c !in s
    ensures forall k :: 0 <= k < |Split(s, c)| ==> c !in Split(s, c)[k]
    decreases |s|
  {
    var i := IndexOf(s, c);
    if i == |s| {
      assert Split(s, c) == [s];
      assert c !in s;
    } else {
      var head, rest := s[..i], s[i + 1..];
      var pieces := Split(rest, c);
      assert Split(s, c) == [head] + pieces;
      assert s[i] == c;
      assert c !in head;
      SplitPieces(rest, c);
      PiecesCons(head, pieces, c);
    }
  }

  lemma PiecesCons(head: string, pieces: seq<string>, c: char)
    requires c !in head && forall k :: 0 <= k < |pieces| ==> c !in pieces[k]
    ensures forall k :: 0 <= k < |[head] + pieces| ==> c !in ([head] + pieces)[k]
  {
    forall k | 0 <= k < |[head] + pieces|
      ensures c !in ([head] + pieces)[k]
    {
      if k > 0 {
        assert ([head] + pieces)[k] == pieces[k - 1];
      }
    }
  }

  /** Python's `sep.join(parts)`. */
  function Join(sep: string, parts: seq<string>): string
  {
    if |parts| == 0 then ""
    else if |parts| == 1 then parts[0]
    else parts[0] + sep + Join(sep, parts[1..])
  }

  lemma {:induction false} JoinCons(sep: string, head: string, tail: seq<string>)
    requires tail != []
    ensures Join(sep, [head] + tail) == head + sep + Join(sep, tail)
  {
    assert ([head] + tail)[1..] == tail;
  }

  /** Splitting at `c` and joining with `c` gives the text back. */
  lemma {:induction false} JoinSplit(s: string, c: char)
    ensures Join([c], Split(s, c)) == s
    decreases |s|
  {
    var i := IndexOf(s, c);
    if i < |s| {
      var head, rest := s[..i], s[i + 1..];
      var pieces := Split(rest, c);
      assert Split(s, c) == [head] + pieces;
      assert Join([c], pieces) == rest by {
        JoinSplit(rest, c);
      }
      assert Join([c], [head] + pieces) == head + [c] + Join([c], pieces) by {
        JoinCons([c], head, pieces);
      }
      assert s == (head + [c]) + rest by {
        CutAt(s, i);
      }
    }
  }

  /** Joining all pieces equals joining all but the last, the separator and
      the last piece. */
  lemma {:induction false} JoinSnoc(sep: string, parts: seq<string>)
    requires |parts| >= 2
    ensures Join(sep, parts) == Join(sep, parts[..|parts| - 1]) + sep + parts[|parts| - 1]
    decreases |parts|
  {
    var n := |parts|;
    if n > 2 {
      JoinSnoc(sep, parts[1..]);
      assert parts[1..][..n - 2] == parts[..n - 1][1..];
      assert parts[1..][n - 2] == parts[n - 1];
    }
  }

  // ---------------------------------------------------------------------
  // str.splitlines()
  // ---------------------------------------------------------------------

  /** The characters `str.splitlines` treats as line boundaries. */
  predicate IsLineBreak(c: char)
  {
    c == '\n' || c == '\r' || c == '\U{0B}' || c == '\U{0C}'
    || c == '\U{1C}' || c == '\U{1D}' || c == '\U{1E}'
    || c == '\U{85}' || c == '\U{2028}' || c == '\U{2029}'
  }

  predicate NoLineBreak(line: string)
  {
    forall k :: 0 <= k < |line| ==> !IsLineBreak(line[k])
  }

  /** The index of the first line boundary in `s`, or `|s|`. */
  function BreakIndex(s: string): (i: nat)
    ensures i <= |s|
    ensures i < |s| ==> IsLineBreak(s[i])
    ensures forall k :: 0 <= k < i ==> !IsLineBreak(s[k])
  {
    if s == [] then 0
    else if IsLineBreak(s[0]) then 0
    else 1 + BreakIndex(s[1..])
  }

  /** Python's `s.splitlines()`: the lines without their boundaries; `\r\n`
      is one boundary, and a boundary at the very end opens no further line. */
  function SplitLines(s: string): (lines: seq<string>)
    ensures s != [] <==> lines != []
    decreases |s|
  {
    if s == [] then []
    else
      var i := BreakIndex(s);
      if i == |s| then [s]
      else
        var next := if s[i] == '\r' && i + 1 < |s| && s[i + 1] == '\n' then i + 2 else i + 1;
        [s[..i]] + SplitLines(s[next..])
  }

  /** No line that splitlines returns contains a boundary character. */
  lemma {:induction false} SplitLinesHaveNoBreaks(s: string)
    ensures forall k :: 0 <= k < |SplitLines(s)| ==> NoLineBreak(SplitLines(s)[k])
    decreases |s|
  {
    if s != [] {
      var i := BreakIndex(s);
      if i < |s| {
        var next := if s[i] == '\r' && i + 1 < |s| && s[i + 1] == '\n' then i + 2 else i + 1;
        SplitLinesHaveNoBreaks(s[next..]);
        assert NoLineBreak(s[..i]);
      }
    }
  }

  /** A text whose only line boundaries are `\n`. */
  predicate OnlyNewlines(s: string)
  {
    forall k {:trigger IsLineBreak(s[k])} :: 0 <= k < |s| ==> IsLineBreak(s[k]) ==> s[k] == '\n'
  }

  /** For a text that uses `\n` only and does not end with one, splitting into
      lines and joining with `\n` gives the text back. */
  lemma {:induction false} JoinSplitLines(s: string)
    requires OnlyNewlines(s)
    requires s == [] || s[|s| - 1] != '\n'
    ensures Join("\n", SplitLines(s)) == s
    decreases |s|
  {
    var i := BreakIndex(s);
    if s != [] && i < |s| {
      NewlineAtBreak(s, i);
      var rest := s[i + 1..];
      assert rest != [] && rest[|rest| - 1] == s[|s| - 1];
      OnlyNewlinesSuffix(s, i + 1);
      JoinSplitLines(rest);
      var lines := SplitLines(rest);
      JoinSplitLinesStep(s, i, lines);
    } else if s != [] {
      assert SplitLines(s) == [s];
    }
  }

  /** The step of the induction above: the first line, its `\n`, and the
      rejoined lines of the rest. */
  lemma {:induction false} JoinSplitLinesStep(s: string, i: nat, lines: seq<string>)
    requires OnlyNewlines(s) && i == BreakIndex(s) && i + 1 < |s|
    requires lines == SplitLines(s[i + 1..]) && Join("\n", lines) == s[i + 1..]
    ensures Join("\n", SplitLines(s)) == s
  {
    var head, rest := s[..i], s[i + 1..];
    assert SplitLines(s) == [head] + lines by {
      SplitLinesAtNewline(s);
    }
    assert lines != [];
    JoinCons("\n", head, lines);
    RejoinAt(s, i);
  }

  /** In a text that uses `\n` only, the first boundary is a `\n`. */
  lemma NewlineAtBreak(s: string, i: nat)
    requires OnlyNewlines(s) && i == BreakIndex(s) && i < |s|
    ensures s[i] == '\n'
  {
  }

  /** Lines without boundaries, the last of them not empty, joined with
      `\n` split back into the same lines. */
  lemma {:induction false} SplitJoinLines(lines: seq<string>)
    requires forall k :: 0 <= k < |lines| ==> NoLineBreak(lines[k])
    requires lines == [] || lines[|lines| - 1] != ""
    ensures SplitLines(Join("\n", lines)) == lines
  {
    if |lines| == 1 {
      var s := lines[0];
      assert BreakIndex(s) == |s|;
    } else if |lines| > 1 {
      var rest := lines[1..];
      SplitJoinLines(rest);
      var joined := Join("\n", rest);
      SplitJoinLinesStep(lines, joined);
    }
  }

  /** The step of the induction above: the first line, then a `\n`, then a
      text that splits into the remaining lines. */
  lemma {:induction false} SplitJoinLinesStep(lines: seq<string>, joined: string)
    requires |lines| > 1 && NoLineBreak(lines[0])
    requires joined == Join("\n", lines[1..]) && SplitLines(joined) == lines[1..]
    ensures SplitLines(Join("\n", lines)) == lines
  {
    var first := lines[0];
    assert Join("\n", lines) == first + "\n" + joined by {
      assert lines == [first] + lines[1..];
      JoinCons("\n", first, lines[1..]);
    }
    LineThenRest(first, joined);
    assert lines == [first] + lines[1..];
  }

  /** A line without boundaries followed by `\n` is the first line. */
  lemma LineThenRest(first: string, rest: string)
    requires NoLineBreak(first)
    ensures SplitLines(first + "\n" + rest) == [first] + SplitLines(rest)
  {
    var s := first + "\n" + rest;
    assert s[|first|] == '\n';
    assert BreakIndex(s) == |first|;
    assert s[..|first|] == first;
    assert s[|first| + 1..] == rest;
  }

  lemma ConcatAssoc<T>(x: seq<T>, y: seq<T>, z: seq<T>)
    ensures (x + y) + z == x + (y + z)
  {
  }

  lemma PrefixExtend(p: string, x: string, y: string)
    requires x <= y
    ensures p + x <= p + y
  {
    assert (p + y)[..|p + x|] == p + x;
  }

  /** The first `n` lines joined with `\n`: `"\n".join(s.splitlines()[:n])`. */
  function FirstLines(s: string, n: nat): string
  {
    Join("\n", Take(SplitLines(s), n))
  }

  /** For a text that uses `\n` only, the first `n` lines joined with `\n`
      are a prefix of the text. */
  lemma {:induction false} FirstLinesArePrefix(s: string, n: nat)
    requires OnlyNewlines(s)
    ensures FirstLines(s, n) <= s
    decreases |s|
  {
    var i := BreakIndex(s);
    if s != [] && n > 0 && i < |s| {
      OnlyNewlinesSuffix(s, i + 1);
      FirstLinesArePrefix(s[i + 1..], n - 1);
      FirstLinesStep(s, n, i);
    } else {
      FirstLinesBase(s, n);
    }
  }

  /** Without a boundary, or with no line asked for, the joined lines are
      the whole text or nothing. */
  lemma FirstLinesBase(s: string, n: nat)
    requires s == [] || n == 0 || BreakIndex(s) == |s|
    ensures FirstLines(s, n) <= s
  {
    if s != [] && n > 0 {
      assert SplitLines(s) == [s];
      assert Take([s], n) == [s];
    }
  }

  /** The step of the induction above: the first line, then the first
      `n - 1` lines of what follows its `\n`. */
  lemma {:induction false} FirstLinesStep(s: string, n: nat, i: nat)
    requires OnlyNewlines(s) && n > 0 && i == BreakIndex(s) && i < |s|
    requires FirstLines(s[i + 1..], n - 1) <= s[i + 1..]
    ensures FirstLines(s, n) <= s
  {
    var rest := s[i + 1..];
    var head := s[..i];
    var tail := Take(SplitLines(rest), n - 1);
    assert s == (head + "\n") + rest by {
      SplitLinesAtNewline(s);
      RejoinAt(s, i);
    }
    assert Take(SplitLines(s), n) == [head] + tail by {
      FirstLinesShape(s, n);
    }
    FirstLinesGlue(s, head, rest, tail, Take(SplitLines(s), n));
  }

  /** The first line, its `\n`, and a prefix of what follows form a prefix. */
  lemma FirstLinesGlue(s: string, head: string, rest: string, tail: seq<string>, lines: seq<string>)
    requires s == (head + "\n") + rest && lines == [head] + tail
    requires Join("\n", tail) <= rest
    ensures Join("\n", lines) <= s
  {
    if tail == [] {
      assert Join("\n", lines) == head;
    } else {
      JoinedLinesPrefix(head, tail, rest);
    }
  }

  lemma {:induction false} FirstLinesShape(s: string, n: nat)
    requires OnlyNewlines(s) && n > 0 && BreakIndex(s) < |s|
    ensures Take(SplitLines(s), n) == [s[..BreakIndex(s)]] + Take(SplitLines(s[BreakIndex(s) + 1..]), n - 1)
  {
    var i := BreakIndex(s);
    SplitLinesAtNewline(s);
    TakeCons(s[..i], SplitLines(s[i + 1..]), n);
  }

  lemma OnlyNewlinesSuffix(s: string, j: nat)
    requires j <= |s| && OnlyNewlines(s)
    ensures OnlyNewlines(s[j..])
  {
    forall k | 0 <= k < |s[j..]|
      ensures IsLineBreak(s[j..][k]) ==> s[j..][k] == '\n'
    {
      assert s[j..][k] == s[j + k];
    }
  }

  /** One more line in front keeps the joined lines a prefix. */
  lemma {:induction false} JoinedLinesPrefix(head: string, tail: seq<string>, rest: string)
    requires tail != [] && Join("\n", tail) <= rest
    ensures Join("\n", [head] + tail) <= (head + "\n") + rest
  {
    JoinCons("\n", head, tail);
    PrefixExtend(head + "\n", Join("\n", tail), rest);
  }

  lemma RejoinAt(s: string, i: nat)
    requires i < |s| && s[i] == '\n'
    ensures s == (s[..i] + "\n") + s[i + 1..]
  {
    CutAt(s, i);
  }

  /** A text is what precedes position `i`, the element there, and what
      follows it. */
  lemma CutAt<T>(s: seq<T>, i: nat)
    requires i < |s|
    ensures s == (s[..i] + [s[i]]) + s[i + 1..]
  {
    assert s[..i] + [s[i]] == s[..i + 1];
    assert s[..i + 1] + s[i + 1..] == s;
  }

  /** When the first boundary of `s` is a `\n`, the first line is what
      precedes it and the rest is split on its own. */
  lemma {:induction false} SplitLinesAtNewline(s: string)
    requires OnlyNewlines(s)
    requires BreakIndex(s) < |s|
    ensures s[BreakIndex(s)] == '\n'
    ensures SplitLines(s) == [s[..BreakIndex(s)]] + SplitLines(s[BreakIndex(s) + 1..])
  {
  }

  lemma TakeCons<T>(x: T, xs: seq<T>, n: nat)
    requires n > 0
    ensures Take([x] + xs, n) == [x] + Take(xs, n - 1)
  {
  }

  // ---------------------------------------------------------------------
  // str.strip()
  // ---------------------------------------------------------------------

  /** The characters for which Python's `str.isspace` holds, which
      `str.strip()` with no argument removes. */
  predicate IsSpace(c: char)
  {
    ('\t' <= c <= '\r') || ('\U{1C}' <= c <= '\U{1F}') || c == ' '
    || c == '\U{85}' || c == '\U{A0}' || c == '\U{1680}'
    || ('\U{2000}' <= c <= '\U{200A}')
    || c == '\U{2028}' || c == '\U{2029}' || c == '\U{202F}'
    || c == '\U{205F}' || c == '\U{3000}'
  }

  /** The number of leading white-space characters of `s`. */
  function LeadingSpaces(s: string): (a: nat)
    ensures a <= |s|
    ensures forall k :: 0 <= k < a ==> IsSpace(s[k])
    ensures a < |s| ==> !IsSpace(s[a])
  {
    if s == [] then 0
    else if IsSpace(s[0]) then 1 + LeadingSpaces(s[1..])
    else 0
  }

  /** The index where the trailing white space of `s` begins. */
  function TrailingStart(s: string): (b: nat)
    ensures b <= |s|
    ensures forall k :: b <= k < |s| ==> IsSpace(s[k])
    ensures 0 < b ==> !IsSpace(s[b - 1])
  {
    if s == [] then 0
    else if IsSpace(s[|s| - 1]) then TrailingStart(s[..|s| - 1])
    else |s|
  }

  /** Where the stripped text starts in `s`. */
  function StripStart(s: string): (a: nat)
    ensures a <= |s|
    ensures forall k :: 0 <= k < a ==> IsSpace(s[k])
  {
    LeadingSpaces(s)
  }

  /** Where the stripped text ends in `s`. */
  function StripEnd(s: string): (b: nat)
    ensures StripStart(s) <= b <= |s|
    ensures forall k :: b <= k < |s| ==> IsSpace(s[k])
  {
    if LeadingSpaces(s) == |s| then |s| else TrailingStart(s)
  }

  /** Python's `s.strip()`: `s` without its leading and trailing white space. */
  function Strip(s: string): (r: string)
    ensures r == [] || (!IsSpace(r[0]) && !IsSpace(r[|r| - 1]))
    ensures exists a, b :: 0 <= a <= b <= |s| && r == s[a..b]
              && (forall k :: 0 <= k < a ==> IsSpace(s[k]))
              && (forall k :: b <= k < |s| ==> IsSpace(s[k]))
  {
    s[StripStart(s)..StripEnd(s)]
  }

  // ---------------------------------------------------------------------
  // str.lower() and str(int)
  // ---------------------------------------------------------------------

  function LowerChar(c: char): char
  {
    if 'A' <= c <= 'Z' then (c as int + 32) as char else c
  }

  /** `s.lower()` on the letters A to Z; every other character is kept. */
  function AsciiLower(s: string): (r: string)
    ensures |r| == |s|
    ensures forall k :: 0 <= k < |s| ==> r[k] == LowerChar(s[k])
  {
    seq(|s|, k requires 0 <= k < |s| => LowerChar(s[k]))
  }

  predicate IsDigit(c: char)
  {
    '0' <= c <= '9'
  }

  predicate AllDigits(s: string)
  {
    forall k :: 0 <= k < |s| ==> IsDigit(s[k])
  }

  /** The decimal digits of `n`, without leading zeros. */
  function NatToString(n: nat): (r: string)
    ensures |r| >= 1 && AllDigits(r)
    ensures |r| > 1 ==> r[0] != '0'
  {
    if n < 10 then ['0' + n as char]
    else NatToString(n / 10) + ['0' + (n % 10) as char]
  }

  /** Python's `str(i)` for an integer. */
  function IntToString(i: int): (r: string)
    ensures |r| >= 1
    ensures i < 0 <==> r[0] == '-'
  {
    if i < 0 then "-" + NatToString(-i) else NatToString(i)
  }

  /** The number a string of decimal digits denotes. */
  function DecimalValue(s: string): nat
    requires AllDigits(s)
  {
    if s == [] then 0
    else 10 * DecimalValue(s[..|s| - 1]) + (s[|s| - 1] as int - '0' as int)
  }

  /** Reading back the digits that `NatToString` writes gives the number. */
  lemma {:induction false} NatToStringRoundTrip(n: nat)
    ensures DecimalValue(NatToString(n)) == n
  {
    if n >= 10 {
      NatToStringRoundTrip(n / 10);
      var r := NatToString(n);
      assert r[..|r| - 1] == NatToString(n / 10);
    }
  }
}
