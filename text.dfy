/**
 * Character classes of JavaScript regular expressions (without the `u` flag)
 * and the line structure that the `^`, `$` and `.` of a multiline pattern see.
 */
module Text {

  /** A LineTerminator: `.` never matches one, and with the `m` flag `^` holds
      right after one and `$` right before one. */
  predicate IsLineTerminator(c: char) {
    c == '\n' || c == '\r' || c == '\U{2028}' || c == '\U{2029}'
  }

  /** The class `\s`: WhiteSpace (including every space separator) and LineTerminator. */
  predicate IsSpace(c: char) {
    c == '\t' || c == '\n' || c == '\U{000B}' || c == '\U{000C}' || c == '\r' || c == ' '
    || c == '\U{00A0}' || c == '\U{1680}' || ('\U{2000}' <= c <= '\U{200A}')
    || c == '\U{2028}' || c == '\U{2029}' || c == '\U{202F}' || c == '\U{205F}'
    || c == '\U{3000}' || c == '\U{FEFF}'
  }

  /** The class `\w`: `[A-Za-z0-9_]`. */
  predicate IsWordChar(c: char) {
    ('a' <= c <= 'z') || ('A' <= c <= 'Z') || ('0' <= c <= '9') || c == '_'
  }

  /** The text holds no line terminator: it lies within one line. */
  predicate NoBreak(s: string) {
    forall i :: 0 <= i < |s| ==> !IsLineTerminator(s[i])
  }

  /** `s.startsWith(prefix)` */
  predicate StartsWith(s: string, prefix: string) {
    |prefix| <= |s| && s[..|prefix|] == prefix
  }

  /** Where the first line of `s` ends: the position `$` or `.*$` reaches from the start. */
  function LineEnd(s: string): (e: nat)
    ensures e <= |s|
    ensures e < |s| ==> IsLineTerminator(s[e])
  {
    if s == [] || IsLineTerminator(s[0]) then 0
    else
      1 + LineEnd(s[1..])
  }

  /** The first line holds no terminator. */
  lemma {:induction false} LineEndNoBreak(s: string)
    ensures NoBreak(s[..LineEnd(s)])
  {
    if s != [] && !IsLineTerminator(s[0]) {
      LineEndNoBreak(s[1..]);
      assert s[..LineEnd(s)] == [s[0]] + s[1..][..LineEnd(s[1..])];
    }
  }

  /** The lines of `s`, split at every line terminator (the terminators are in Breaks). */
  function Lines(s: string): (ls: seq<string>)
    ensures |ls| >= 1
    decreases |s|
  {
    var e := LineEnd(s);
    if e == |s| then [s] else [s[..e]] + Lines(s[e + 1..])
  }

  /** The line terminators of `s`, in order: one fewer than its lines. */
  function Breaks(s: string): (bs: seq<char>)
    ensures |bs| == |Lines(s)| - 1
    ensures forall i :: 0 <= i < |bs| ==> IsLineTerminator(bs[i])
    decreases |s|
  {
    var e := LineEnd(s);
    if e == |s| then [] else s[e..e + 1] + Breaks(s[e + 1..])
  }

  /** Lines put back together, with the given terminators between them. */
  function Unlines(ls: seq<string>, bs: seq<char>): string
    requires |ls| == |bs| + 1
    decreases |bs|
  {
    if bs == [] then ls[0] else ls[0] + bs[..1] + Unlines(ls[1..], bs[1..])
  }

  /** The first line and terminator of a text that has more than one line. */
  lemma LinesStep(s: string, e: nat)
    requires e == LineEnd(s) < |s|
    ensures Lines(s) == [s[..e]] + Lines(s[e + 1..])
  {
  }

  /** No line holds a terminator. */
  lemma {:induction false} LinesNoBreak(s: string)
    ensures forall i :: 0 <= i < |Lines(s)| ==> NoBreak(Lines(s)[i])
    decreases |s|
  {
    var e := LineEnd(s);
    if e < |s| {
      LinesStep(s, e);
      LineEndNoBreak(s);
      LinesNoBreak(s[e + 1..]);
    } else {
      assert Lines(s) == [s];
      assert s[..e] == s;
      LineEndNoBreak(s);
    }
  }

  lemma BreaksStep(s: string, e: nat)
    requires e == LineEnd(s) < |s|
    ensures Breaks(s) == s[e..e + 1] + Breaks(s[e + 1..])
  {
  }

  lemma {:induction false} LineEndWhole(x: string)
    requires NoBreak(x)
    ensures LineEnd(x) == |x|
  {
    if x != [] {
      LineEndWhole(x[1..]);
    }
  }

  lemma {:induction false} LineEndAt(x: string, b: char, rest: string)
    requires NoBreak(x) && IsLineTerminator(b)
    ensures LineEnd(x + [b] + rest) == |x|
  {
    if x != [] {
      assert (x + [b] + rest)[1..] == x[1..] + [b] + rest;
      LineEndAt(x[1..], b, rest);
    }
  }

  /** A text that stays on one line is one line. */
  lemma LinesWhole(x: string)
    requires NoBreak(x)
    ensures Lines(x) == [x] && Breaks(x) == []
  {
    LineEndWhole(x);
  }

  /** A text that starts with one line and a terminator splits there. */
  lemma LinesAt(x: string, b: char, rest: string)
    requires NoBreak(x) && IsLineTerminator(b)
    ensures Lines(x + [b] + rest) == [x] + Lines(rest)
  {
    var s := x + [b] + rest;
    LineEndAt(x, b, rest);
    LinesStep(s, |x|);
    assert s[..|x|] == x;
    assert s[|x| + 1..] == rest;
  }

  /** ... and that terminator is its first one. */
  lemma TerminatorsAt(x: string, b: char, rest: string)
    requires NoBreak(x) && IsLineTerminator(b)
    ensures Breaks(x + [b] + rest) == [b] + Breaks(rest)
  {
    var s := x + [b] + rest;
    LineEndAt(x, b, rest);
    BreaksStep(s, |x|);
    assert s[|x|..|x| + 1] == [b];
    assert s[|x| + 1..] == rest;
  }

  lemma UnlinesCons(x: string, ls: seq<string>, b: char, bs: seq<char>)
    requires |ls| == |bs| + 1
    ensures Unlines([x] + ls, [b] + bs) == x + [b] + Unlines(ls, bs)
  {
    assert ([x] + ls)[1..] == ls;
    assert ([b] + bs)[..1] == [b] && ([b] + bs)[1..] == bs;
  }

  /** Splitting a text that starts with a line and a terminator, and joining again. */
  lemma UnlinesAt(x: string, b: char, rest: string)
    requires NoBreak(x) && IsLineTerminator(b)
    ensures Unlines(Lines(x + [b] + rest), Breaks(x + [b] + rest)) == x + [b] + Unlines(Lines(rest), Breaks(rest))
  {
    LinesAt(x, b, rest);
    TerminatorsAt(x, b, rest);
    UnlinesCons(x, Lines(rest), b, Breaks(rest));
  }

  /** Splitting loses nothing. */
  lemma {:induction false} UnlinesLines(s: string)
    ensures Unlines(Lines(s), Breaks(s)) == s
    decreases |s|
  {
    var e := LineEnd(s);
    if e < |s| {
      var rest := s[e + 1..];
      assert s == s[..e] + [s[e]] + rest;
      LineEndNoBreak(s);
      UnlinesAt(s[..e], s[e], rest);
      UnlinesLines(rest);
    } else {
      LineEndNoBreak(s);
      assert s[..e] == s;
      LinesWhole(s);
    }
  }

  /** Joining lines that hold no terminator and splitting again gives them back. */
  lemma {:induction false} LinesUnlines(ls: seq<string>, bs: seq<char>)
    requires |ls| == |bs| + 1
    requires forall i :: 0 <= i < |ls| ==> NoBreak(ls[i])
    requires forall i :: 0 <= i < |bs| ==> IsLineTerminator(bs[i])
    ensures Lines(Unlines(ls, bs)) == ls
    decreases |bs|
  {
    if bs == [] {
      LinesWhole(ls[0]);
    } else {
      LinesUnlines(ls[1..], bs[1..]);
      LinesAt(ls[0], bs[0], Unlines(ls[1..], bs[1..]));
      assert bs[..1] == [bs[0]];
    }
  }

  /** ... and the terminators back. */
  lemma {:induction false} BreaksUnlines(ls: seq<string>, bs: seq<char>)
    requires |ls| == |bs| + 1
    requires forall i :: 0 <= i < |ls| ==> NoBreak(ls[i])
    requires forall i :: 0 <= i < |bs| ==> IsLineTerminator(bs[i])
    ensures Breaks(Unlines(ls, bs)) == bs
    decreases |bs|
  {
    if bs == [] {
      LinesWhole(ls[0]);
    } else {
      BreaksUnlines(ls[1..], bs[1..]);
      TerminatorsAt(ls[0], bs[0], Unlines(ls[1..], bs[1..]));
      assert bs[..1] == [bs[0]];
      assert bs == [bs[0]] + bs[1..];
    }
  }

  /** A text is determined by its lines and its terminators. */
  lemma SameLinesSameText(a: string, b: string)
    requires Lines(a) == Lines(b) && Breaks(a) == Breaks(b)
    ensures a == b
  {
    UnlinesLines(a);
    UnlinesLines(b);
  }

  /** The first line begins with the text's first character, unless that is a terminator. */
  lemma FirstLineStart(s: string)
    ensures |s| > 0 && !IsLineTerminator(s[0]) ==>
      |Lines(s)[0]| > 0 && Lines(s)[0][0] == s[0]
  {
    var e := LineEnd(s);
    assert Lines(s)[0] == s[..e];
  }

  lemma NoBreakSlice(s: string, i: nat, j: nat)
    requires i <= j <= |s| && NoBreak(s)
    ensures NoBreak(s[i..j])
  {
    assert forall k :: 0 <= k < j - i ==> s[i..j][k] == s[i + k];
  }

  lemma NoBreakJoin(a: string, b: string, c: string, d: string)
    requires NoBreak(a) && NoBreak(b) && NoBreak(c) && NoBreak(d)
    ensures NoBreak(a + b + c + d)
  {
  }

  /** A text that starts with `p` starts with every prefix of `p`. */
  lemma PrefixOfPrefix(s: string, p: string, n: nat)
    requires n <= |p|
    ensures StartsWith(s, p) ==> StartsWith(s, p[..n])
  {
    if StartsWith(s, p) {
      assert s[..n] == s[..|p|][..n];
    }
  }

  /** Lines joined by line feeds: the plain text of a document whose blocks are `ls`. */
  function JoinLines(ls: seq<string>): string
    requires |ls| >= 1
  {
    if |ls| == 1 then ls[0] else ls[0] + "\n" + JoinLines(ls[1..])
  }

  /** Splitting joined blocks gives the blocks back, with one line feed between each two. */
  lemma {:induction false} LinesOfJoin(ls: seq<string>)
    requires |ls| >= 1 && forall i :: 0 <= i < |ls| ==> NoBreak(ls[i])
    ensures Lines(JoinLines(ls)) == ls
    ensures |Breaks(JoinLines(ls))| == |ls| - 1
    ensures forall i :: 0 <= i < |ls| - 1 ==> Breaks(JoinLines(ls))[i] == '\n'
  {
    LinesOfJoinOnly(ls);
    BreaksOfJoin(ls);
  }

  lemma {:induction false} LinesOfJoinOnly(ls: seq<string>)
    requires |ls| >= 1 && forall i :: 0 <= i < |ls| ==> NoBreak(ls[i])
    ensures Lines(JoinLines(ls)) == ls
  {
    if |ls| == 1 {
      LinesWhole(ls[0]);
    } else {
      LinesOfJoinOnly(ls[1..]);
      LinesAt(ls[0], '\n', JoinLines(ls[1..]));
    }
  }

  lemma {:induction false} BreaksOfJoin(ls: seq<string>)
    requires |ls| >= 1 && forall i :: 0 <= i < |ls| ==> NoBreak(ls[i])
    ensures forall i :: 0 <= i < |Breaks(JoinLines(ls))| ==> Breaks(JoinLines(ls))[i] == '\n'
  {
    if |ls| == 1 {
      LinesWhole(ls[0]);
    } else {
      BreaksOfJoin(ls[1..]);
      TerminatorsAt(ls[0], '\n', JoinLines(ls[1..]));
    }
  }

  /** Two texts with the same lines and only line feeds between them are equal. */
  lemma SameLinesSameJoin(a: string, ls: seq<string>)
    requires |ls| >= 1 && forall i :: 0 <= i < |ls| ==> NoBreak(ls[i])
    requires Lines(a) == ls && forall i :: 0 <= i < |Breaks(a)| ==> Breaks(a)[i] == '\n'
    ensures a == JoinLines(ls)
  {
    LinesOfJoin(ls);
    SameLinesSameText(a, JoinLines(ls));
  }

  lemma JoinTwo(x: string, y: string)
    ensures JoinLines([x, y]) == x + "\n" + y
  {
    assert [x, y][1..] == [y];
  }
}
