/**
 * The batch translator `parseText`: four regular-expression substitutions
 * applied in a fixed order to the whole plain text of a note.
 *
 *   Step1  /^#(.*$)/gm          -> <h1 class="text-4xl font-bold">$1</h1>
 *   Step2  /^\*([\w\s]+)/       -> <span class="font-bold">$1</span>
 *   Step3  /^\*\*\s(.*$)/gm     -> <span class="text-red-500">$1</span>
 *   Step4  /^\*\*\*\s(.*$)/gm   -> <span class="underline">$1</span>
 *
 * Steps 1, 3 and 4 are instances of one line-anchored rule, replaced
 * globally by a left-to-right scan; Step 2 has neither flag and rewrites
 * at most one prefix of the whole text.
 */
module Translator {
  import opened Text

  const H1Open: string := "<h1 class=\"text-4xl font-bold\">"
  const H1Close: string := "</h1>"
  const BoldOpen: string := "<span class=\"font-bold\">"
  const AlertOpen: string := "<span class=\"text-red-500\">"
  const UnderlineOpen: string := "<span class=\"underline\">"
  const SpanClose: string := "</span>"

  /** A pattern `^marker(.*$)` (or `^marker\s(.*$)` when `needsSpace`) with
      flags `gm`, replaced by `open` + the captured rest of the line + `close`. */
  datatype LineRule = LineRule(marker: string, needsSpace: bool, open: string, close: string)

  const HeadingRule: LineRule := LineRule("#", false, H1Open, H1Close)
  const AlertRule: LineRule := LineRule("**", true, AlertOpen, SpanClose)
  const UnderlineRule: LineRule := LineRule("***", true, UnderlineOpen, SpanClose)

  /** The marker is a nonempty literal on one line, and the replacement adds no line. */
  predicate WellFormed(r: LineRule) {
    |r.marker| >= 1 && NoBreak(r.marker) && NoBreak(r.open) && NoBreak(r.close)
  }

  /** Where the captured group `(.*$)` begins, relative to the match. */
  function ContentStart(r: LineRule): nat {
    |r.marker| + if r.needsSpace then 1 else 0
  }

  /** The part of the pattern after `^` matches at the beginning of `t`; the
      `(.*$)` that follows always matches, up to the end of the line. */
  predicate MatchesAt(r: LineRule, t: string) {
    ContentStart(r) <= |t| && StartsWith(t, r.marker)
    && (r.needsSpace ==> IsSpace(t[|r.marker|]))
  }

  /**
   * `t.replace(pattern, replacement)` for a global multiline rule: try a
   * match at each position from left to right. `Scan` works where `^` holds
   * (the text start, or right after a line terminator) and `ScanInLine`
   * where it does not. A match is replaced and the scan resumes after it, so
   * matches never overlap; otherwise one character is copied.
   */
  function Scan(r: LineRule, t: string): string
    requires |r.marker| >= 1
    decreases |t|, 1
  {
    if t == [] then []
    else if MatchesAt(r, t) then
      var c := ContentStart(r);
      var e := c + LineEnd(t[c..]);
      r.open + t[c..e] + r.close
        + if IsLineTerminator(t[e - 1]) then Scan(r, t[e..]) else ScanInLine(r, t[e..])
    else
      ScanInLine(r, t)
  }

  function ScanInLine(r: LineRule, t: string): string
    requires |r.marker| >= 1
    decreases |t|, 0
  {
    if t == [] then []
    else
      [t[0]] + if IsLineTerminator(t[0]) then Scan(r, t[1..]) else ScanInLine(r, t[1..])
  }

  /** The rule applied to one whole line. */
  function RuleLine(r: LineRule, l: string): string {
    if MatchesAt(r, l) then r.open + l[ContentStart(r)..] + r.close else l
  }

  /** The rule applied to each line of a list. */
  function RewriteLines(r: LineRule, ls: seq<string>): (rs: seq<string>)
    ensures |rs| == |ls|
    ensures forall i :: 0 <= i < |ls| ==> rs[i] == RuleLine(r, ls[i])
  {
    if ls == [] then [] else [RuleLine(r, ls[0])] + RewriteLines(r, ls[1..])
  }

  /** No line but the last one is the bare marker of a rule that needs a
      whitespace character after it (for which `\s` would take the line terminator). */
  predicate NoBareMarker(r: LineRule, ls: seq<string>) {
    forall i :: 0 <= i < |ls| - 1 ==> !(r.needsSpace && ls[i] == r.marker)
  }

  /** Within a line, where `^` does not hold, the scan copies up to the line's end. */
  lemma {:induction false} ScanRestOfLine(r: LineRule, t: string, e: nat)
    requires |r.marker| >= 1 && e == LineEnd(t)
    ensures ScanInLine(r, t) == t[..e] + if e < |t| then [t[e]] + Scan(r, t[e + 1..]) else []
    decreases |t|
  {
    if t != [] && !IsLineTerminator(t[0]) {
      var u := t[1..];
      var tail := if e < |t| then [t[e]] + Scan(r, t[e + 1..]) else [];
      assert LineEnd(u) == e - 1;
      calc {
        ScanInLine(r, t);
        [t[0]] + ScanInLine(r, u);
      == { ScanRestOfLine(r, u, e - 1);
           if e < |t| {
             assert u[e - 1] == t[e] && u[e..] == t[e + 1..];
           }
         }
        [t[0]] + (u[..e - 1] + tail);
      == { assert t[..e] == [t[0]] + u[..e - 1]; }
        t[..e] + tail;
      }
    }
  }

  /** The line is at least as long as the prefix of it with no terminator. */
  lemma {:induction false} LineEndShift(t: string, c: nat)
    requires c <= |t| && NoBreak(t[..c])
    ensures LineEnd(t) == c + LineEnd(t[c..])
  {
    if c > 0 {
      assert t[1..][..c - 1] == t[..c][1..];
      LineEndShift(t[1..], c - 1);
      assert t[1..][c - 1..] == t[c..];
    }
  }

  /** A rule that matches a prefix of a text matches the text. */
  lemma MatchesExtend(r: LineRule, l: string, t: string)
    requires |l| <= |t| && l == t[..|l|]
    ensures MatchesAt(r, l) ==> MatchesAt(r, t)
  {
    if MatchesAt(r, l) {
      assert t[..|r.marker|] == l[..|r.marker|];
    }
  }

  /** A terminator at position `m` ends the first line there. */
  lemma BreakAt(t: string, m: nat)
    requires m < |t| && NoBreak(t[..m])
    ensures IsLineTerminator(t[m]) ==> LineEnd(t) == m
  {
    LineEndShift(t, m);
  }

  /** The matched marker, and the whitespace after it unless that is a bare
      marker's terminator, lie on the match's line. */
  lemma MatchHeadOnLine(r: LineRule, t: string)
    requires WellFormed(r) && MatchesAt(r, t)
    requires var e := LineEnd(t); !(r.needsSpace && t[..e] == r.marker && e < |t|)
    ensures NoBreak(t[..ContentStart(r)])
  {
    var m, c := |r.marker|, ContentStart(r);
    assert t[..m] == r.marker;
    if r.needsSpace {
      BreakAt(t, m);
      assert !IsLineTerminator(t[m]);
      forall i | 0 <= i < c ensures !IsLineTerminator(t[..c][i]) {
        if i < m {
          assert t[..c][i] == r.marker[i];
        }
      }
    }
  }

  /** A match at a line start that is not a bare marker ends where the line ends. */
  lemma MatchSpansLine(r: LineRule, t: string)
    requires WellFormed(r) && MatchesAt(r, t)
    requires var e := LineEnd(t); !(r.needsSpace && t[..e] == r.marker && e < |t|)
    ensures ContentStart(r) <= LineEnd(t) == ContentStart(r) + LineEnd(t[ContentStart(r)..])
    ensures MatchesAt(r, t[..LineEnd(t)])
  {
    var m, c := |r.marker|, ContentStart(r);
    MatchHeadOnLine(r, t);
    LineEndShift(t, c);
    assert t[..LineEnd(t)][..m] == t[..m];
  }

  /** A match is replaced up to the end of its line. */
  lemma ScanMatchStep(r: LineRule, t: string, c: nat, e: nat)
    requires |r.marker| >= 1 && MatchesAt(r, t)
    requires c == ContentStart(r) && e == c + LineEnd(t[c..]) && !IsLineTerminator(t[e - 1])
    ensures Scan(r, t) == r.open + t[c..e] + r.close + ScanInLine(r, t[e..])
  {
  }

  /** Resuming at a line's end, the scan keeps the terminator and restarts after it. */
  lemma ScanAtLineEnd(r: LineRule, t: string, e: nat)
    requires |r.marker| >= 1 && e == LineEnd(t)
    ensures ScanInLine(r, t[e..]) == if e < |t| then [t[e]] + Scan(r, t[e + 1..]) else []
  {
    assert LineEnd(t[e..]) == 0;
    ScanRestOfLine(r, t[e..], 0);
    if e < |t| {
      assert t[e..][1..] == t[e + 1..];
    }
  }

  /** When the rule matches at a line start, the line is replaced and the scan
      goes on at the next line start. */
  lemma ScanLineMatch(r: LineRule, t: string, e: nat)
    requires e == LineEnd(t)
    requires WellFormed(r) && MatchesAt(r, t)
    requires !(r.needsSpace && t[..e] == r.marker && e < |t|)
    ensures Scan(r, t) == RuleLine(r, t[..e]) + if e < |t| then [t[e]] + Scan(r, t[e + 1..]) else []
  {
    var c := ContentStart(r);
    MatchSpansLine(r, t);
    var tail := if e < |t| then [t[e]] + Scan(r, t[e + 1..]) else [];
    calc {
      Scan(r, t);
    == { LineEndNoBreak(t);
         assert t[e - 1] == t[..e][e - 1];
         ScanMatchStep(r, t, c, e);
       }
      r.open + t[c..e] + r.close + ScanInLine(r, t[e..]);
    == { ScanAtLineEnd(r, t, e); }
      r.open + t[c..e] + r.close + tail;
    == { assert t[..e][c..] == t[c..e]; }
      RuleLine(r, t[..e]) + tail;
    }
  }

  /** When the rule does not match at a line start, the first line is copied. */
  lemma ScanLineNoMatch(r: LineRule, t: string, e: nat)
    requires e == LineEnd(t)
    requires |r.marker| >= 1 && t != [] && !MatchesAt(r, t)
    ensures Scan(r, t) == RuleLine(r, t[..e]) + if e < |t| then [t[e]] + Scan(r, t[e + 1..]) else []
  {
    MatchesExtend(r, t[..e], t);
    ScanRestOfLine(r, t, e);
  }

  /** At a line start the scan rewrites the first line as RuleLine does and
      resumes at the next line start. */
  lemma ScanLine(r: LineRule, t: string, e: nat)
    requires e == LineEnd(t)
    requires WellFormed(r)
    requires !(r.needsSpace && t[..e] == r.marker && e < |t|)
    ensures Scan(r, t) == RuleLine(r, t[..e]) + if e < |t| then [t[e]] + Scan(r, t[e + 1..]) else []
  {
    if t == [] {
    } else if MatchesAt(r, t) {
      ScanLineMatch(r, t, e);
    } else {
      ScanLineNoMatch(r, t, e);
    }
  }

  /** A well-formed rule rewrites a line into a line. */
  lemma RuleLineNoBreak(r: LineRule, l: string)
    requires WellFormed(r) && NoBreak(l)
    ensures NoBreak(RuleLine(r, l))
  {
    if MatchesAt(r, l) {
      var c := ContentStart(r);
      assert forall i :: 0 <= i < |l| - c ==> l[c..][i] == l[c + i];
    }
  }

  /** The per-line rewrite of a text with more than one line: its first line, rewritten, then the rest. */
  lemma RewriteFirstLine(r: LineRule, t: string, e: nat)
    requires e == LineEnd(t) < |t|
    ensures Unlines(RewriteLines(r, Lines(t)), Breaks(t))
      == RuleLine(r, t[..e]) + [t[e]] + Unlines(RewriteLines(r, Lines(t[e + 1..])), Breaks(t[e + 1..]))
  {
    var rest := t[e + 1..];
    LinesStep(t, e);
    BreaksStep(t, e);
    var ls, bs := Lines(t), Breaks(t);
    assert ls[0] == t[..e] && ls[1..] == Lines(rest);
    assert bs[..1] == [t[e]] && bs[1..] == Breaks(rest);
    var rs := RewriteLines(r, ls);
    assert rs[1..] == RewriteLines(r, Lines(rest));
  }

  /** The per-line rewrite of a text with one line. */
  lemma RewriteOnlyLine(r: LineRule, t: string)
    requires LineEnd(t) == |t|
    ensures Unlines(RewriteLines(r, Lines(t)), Breaks(t)) == RuleLine(r, t)
  {
  }

  /** The left-to-right scan of a whole text equals the rule applied to every
      line separately, with every line terminator kept. */
  lemma {:induction false} ScanPerLine(r: LineRule, t: string)
    requires WellFormed(r) && NoBareMarker(r, Lines(t))
    ensures Scan(r, t) == Unlines(RewriteLines(r, Lines(t)), Breaks(t))
    decreases |t|
  {
    var e := LineEnd(t);
    var ls := Lines(t);
    if e < |t| {
      var rest := t[e + 1..];
      LinesStep(t, e);
      assert ls[0] == t[..e] && ls[1..] == Lines(rest);
      ScanLine(r, t, e);
      ScanPerLine(r, rest);
      RewriteFirstLine(r, t, e);
    } else {
      assert t[..e] == t;
      ScanLine(r, t, e);
      RewriteOnlyLine(r, t);
    }
  }

  /** The lines of the result are the rewritten lines, and the terminators are the same. */
  lemma ScanLines(r: LineRule, t: string)
    requires WellFormed(r) && NoBareMarker(r, Lines(t))
    ensures Lines(Scan(r, t)) == RewriteLines(r, Lines(t))
    ensures Breaks(Scan(r, t)) == Breaks(t)
  {
    ScanPerLine(r, t);
    var ls := Lines(t);
    LinesNoBreak(t);
    var rs := RewriteLines(r, ls);
    forall i | 0 <= i < |rs| ensures NoBreak(rs[i]) {
      RuleLineNoBreak(r, ls[i]);
    }
    LinesUnlines(rs, Breaks(t));
    BreaksUnlines(rs, Breaks(t));
  }

  /** A text on one line is rewritten as that line. */
  lemma ScanSingleLine(r: LineRule, l: string)
    requires WellFormed(r) && NoBreak(l)
    ensures Scan(r, l) == RuleLine(r, l)
  {
    LineEndWhole(l);
    assert l[..|l|] == l;
    ScanLine(r, l, |l|);
  }

  // ----- The four steps of parseText -----

  lemma RulesWellFormed()
    ensures WellFormed(HeadingRule) && WellFormed(AlertRule) && WellFormed(UnderlineRule)
    ensures NoBreak(BoldOpen)
  {
    HeadingTagsOnOneLine();
    SpanTagsOnOneLine();
  }

  lemma HeadingTagsOnOneLine()
    ensures NoBreak(H1Open) && NoBreak(H1Close)
  {
  }

  lemma SpanTagsOnOneLine()
    ensures NoBreak(BoldOpen) && NoBreak(AlertOpen) && NoBreak(UnderlineOpen) && NoBreak(SpanClose)
  {
  }

  /** `/^#(.*$)/gm` */
  function Step1(s: string): string {
    Scan(HeadingRule, s)
  }

  /** `/^\*([\w\s]+)/`: one match at most, at index 0 only */
  function Step2(s: string): (r: string)
    ensures r == s <==> !BoldFires(s)
  {
    if BoldFires(s) then
      var k := 1 + WordRun(s[1..]);
      BoldOpen + s[1..k] + SpanClose + s[k..]
    else s
  }

  /** `/^\*\*\s(.*$)/gm` */
  function Step3(s: string): string {
    Scan(AlertRule, s)
  }

  /** `/^\*\*\*\s(.*$)/gm` */
  function Step4(s: string): string {
    Scan(UnderlineRule, s)
  }

  /** `parseText`: the four substitutions, in order. */
  function ParseText(text: string): string {
    Step4(Step3(Step2(Step1(text))))
  }

  // ----- Step 2 -----

  /** The class `[\w\s]`. */
  predicate IsWordOrSpace(c: char) {
    IsWordChar(c) || IsSpace(c)
  }

  /** The length of the longest prefix of `t` in `[\w\s]`: what the greedy `+` takes. */
  function WordRun(t: string): (k: nat)
    ensures k <= |t|
    ensures forall i :: 0 <= i < k ==> IsWordOrSpace(t[i])
    ensures k < |t| ==> !IsWordOrSpace(t[k])
  {
    if t == [] || !IsWordOrSpace(t[0]) then 0 else 1 + WordRun(t[1..])
  }

  /** `/^\*([\w\s]+)/` matches: a `*` at index 0 and at least one `[\w\s]` after it. */
  predicate BoldFires(s: string) {
    |s| >= 2 && s[0] == '*' && IsWordOrSpace(s[1])
  }

  /** The maximal run rule: when index 0 holds `*` and indices 1 .. k-1 are the
      longest run of `[\w\s]` after it (possibly crossing line terminators),
      Step 2 wraps exactly that run and leaves everything after it untouched. */
  lemma Step2Wraps(s: string, k: nat)
    requires 2 <= k <= |s| && s[0] == '*'
    requires forall i :: 1 <= i < k ==> IsWordOrSpace(s[i])
    requires k < |s| ==> !IsWordOrSpace(s[k])
    ensures Step2(s) == BoldOpen + s[1..k] + SpanClose + s[k..]
  {
  }

  // ----- Each step, line by line -----

  /** Step 1: a line starting with `#` becomes a heading of the rest of the
      line (a space after `#` is not needed, and is kept); other lines and
      every line terminator stay as they are. */
  lemma Step1PerLine(s: string)
    ensures |Lines(Step1(s))| == |Lines(s)| && Breaks(Step1(s)) == Breaks(s)
    ensures forall i :: 0 <= i < |Lines(s)| ==> (Lines(Step1(s))[i] ==
      if StartsWith(Lines(s)[i], "#") then H1Open + Lines(s)[i][1..] + H1Close else Lines(s)[i])
  {
    RulesWellFormed();
    ScanLines(HeadingRule, s);
  }

  /** Step 3: a line `**`, whitespace, rest becomes a red span of the rest;
      lines starting with `***` and all other lines stay. A bare `**` line
      followed by a terminator is excluded: there `\s` takes the terminator. */
  lemma Step3PerLine(s: string)
    requires forall i :: 0 <= i < |Lines(s)| - 1 ==> Lines(s)[i] != "**"
    ensures |Lines(Step3(s))| == |Lines(s)| && Breaks(Step3(s)) == Breaks(s)
    ensures forall i :: 0 <= i < |Lines(s)| ==> (Lines(Step3(s))[i] ==
      var l := Lines(s)[i];
      if |l| >= 3 && StartsWith(l, "**") && IsSpace(l[2]) then AlertOpen + l[3..] + SpanClose else l)
    ensures forall i :: 0 <= i < |Lines(s)| && StartsWith(Lines(s)[i], "***") ==>
      Lines(Step3(s))[i] == Lines(s)[i]
  {
    RulesWellFormed();
    ScanLines(AlertRule, s);
    forall i | 0 <= i < |Lines(s)| && StartsWith(Lines(s)[i], "***")
      ensures Lines(Step3(s))[i] == Lines(s)[i]
    {
      var l := Lines(s)[i];
      assert l[2] == l[..3][2] == '*';
    }
  }

  /** Step 4: a line `***`, whitespace, rest becomes an underline span of the
      rest; other lines stay (a bare `***` line before a terminator excluded). */
  lemma Step4PerLine(s: string)
    requires forall i :: 0 <= i < |Lines(s)| - 1 ==> Lines(s)[i] != "***"
    ensures |Lines(Step4(s))| == |Lines(s)| && Breaks(Step4(s)) == Breaks(s)
    ensures forall i :: 0 <= i < |Lines(s)| ==> (Lines(Step4(s))[i] ==
      var l := Lines(s)[i];
      if |l| >= 4 && StartsWith(l, "***") && IsSpace(l[3]) then UnderlineOpen + l[4..] + SpanClose else l)
  {
    RulesWellFormed();
    ScanLines(UnderlineRule, s);
  }

  /** Step 1 leaves the first two characters alone unless it makes the first
      line a heading, so Step 2 fires after Step 1 exactly when it would have
      fired on the raw text: never after a leading `#` line. */
  lemma BoldFiresAfterStep1(s: string)
    ensures BoldFires(Step1(s)) <==> BoldFires(s)
  {
    RulesWellFormed();
    var e := LineEnd(s);
    ScanLine(HeadingRule, s, e);
    var l := s[..e];
    var t1 := Step1(s);
    if StartsWith(l, "#") {
      assert s[0] == l[..1][0] == '#';
      assert t1[0] == '<';
    } else if e >= 2 {
      assert t1[..e] == l;
      assert t1[0] == s[0] && t1[1] == s[1];
    } else if e == 1 {
      assert t1[0] == s[0];
      if e < |s| {
        assert t1[1] == s[1];
      } else {
        assert |t1| == 1;
      }
    } else if s != [] {
      assert t1[0] == s[0];
    }
  }

  // ----- parseText as a whole -----

  /** The rule table applied to one line, longest marker first: the treatment
      the batch translator gives a line when its steps do not interfere. */
  function TranslateLine(l: string): string {
    if StartsWith(l, "#") then H1Open + l[1..] + H1Close
    else if |l| >= 4 && StartsWith(l, "***") && IsSpace(l[3]) then UnderlineOpen + l[4..] + SpanClose
    else if |l| >= 3 && StartsWith(l, "**") && IsSpace(l[2]) then AlertOpen + l[3..] + SpanClose
    else l
  }

  /** The line-anchored steps never rewrite a line an earlier one produced:
      their markers are told apart by the first three characters, and every
      rewritten line starts with `<`. */
  lemma StepsComposeToTable(l: string)
    ensures RuleLine(UnderlineRule, RuleLine(AlertRule, RuleLine(HeadingRule, l))) == TranslateLine(l)
  {
    var h := RuleLine(HeadingRule, l);
    if StartsWith(l, "#") {
      assert h == H1Open + l[1..] + H1Close;
      assert h[0] == '<';
      TagLeftAlone(AlertRule, h);
      TagLeftAlone(UnderlineRule, h);
    } else if MatchesAt(UnderlineRule, l) {
      assert l[2] == l[..3][2] == '*';
      assert !MatchesAt(AlertRule, l);
    } else if MatchesAt(AlertRule, l) {
      var a := AlertOpen + l[3..] + SpanClose;
      assert RuleLine(AlertRule, l) == a && a[0] == '<';
      TagLeftAlone(UnderlineRule, a);
    }
  }

  /** No `*` rule matches a line that starts with a tag. */
  lemma TagLeftAlone(r: LineRule, x: string)
    requires |r.marker| >= 1 && r.marker[0] == '*' && |x| >= 1 && x[0] == '<'
    ensures RuleLine(r, x) == x
  {
    if |r.marker| <= |x| {
      assert x[..|r.marker|][0] == '<';
    }
  }

  /** When Step 2 does not fire and no line but the last is a bare `**` or
      `***`, parseText rewrites each line by the rule table and keeps every
      line terminator. */
  lemma ParseTextPerLine(s: string)
    requires !BoldFires(s)
    requires forall i :: 0 <= i < |Lines(s)| - 1 ==> Lines(s)[i] != "**" && Lines(s)[i] != "***"
    ensures |Lines(ParseText(s))| == |Lines(s)| && Breaks(ParseText(s)) == Breaks(s)
    ensures forall i :: 0 <= i < |Lines(s)| ==> Lines(ParseText(s))[i] == TranslateLine(Lines(s)[i])
  {
    RulesWellFormed();
    var ls := Lines(s);
    var s1 := Step1(s);
    ScanLines(HeadingRule, s);
    BoldFiresAfterStep1(s);
    assert Step2(s1) == s1;
    var ls1 := Lines(s1);
    forall i | 0 <= i < |ls1| - 1 ensures ls1[i] != "**" && ls1[i] != "***" {
      assert ls1[i] == RuleLine(HeadingRule, ls[i]);
    }
    var s3 := Step3(s1);
    ScanLines(AlertRule, s1);
    var ls3 := Lines(s3);
    forall i | 0 <= i < |ls3| - 1 ensures ls3[i] != "***" {
      assert ls3[i] == RuleLine(AlertRule, ls1[i]);
    }
    ScanLines(UnderlineRule, s3);
    forall i | 0 <= i < |ls| ensures Lines(ParseText(s))[i] == TranslateLine(ls[i]) {
      StepsComposeToTable(ls[i]);
    }
  }

  /** No line starting with `#` or `*`: no line is a bare marker and the table leaves every line alone. */
  lemma MarkerFreeLines(ls: seq<string>)
    requires forall i :: 0 <= i < |ls| ==> !StartsWith(ls[i], "#") && !StartsWith(ls[i], "*")
    ensures forall i :: 0 <= i < |ls| - 1 ==> ls[i] != "**" && ls[i] != "***"
    ensures forall i :: 0 <= i < |ls| ==> TranslateLine(ls[i]) == ls[i]
  {
    assert StartsWith("**", "*") && StartsWith("***", "*");
  }

  /** No line starting with `*`: Step 2 does not fire. */
  lemma MarkerFreeNoBold(s: string)
    requires !StartsWith(Lines(s)[0], "*")
    ensures !BoldFires(s)
  {
    FirstLineStart(s);
  }

  /** parseText is the identity on text where no line starts with `#` or `*`;
      in particular on the empty text. */
  lemma ParseTextIdentity(s: string)
    requires forall i :: 0 <= i < |Lines(s)| ==>
      !StartsWith(Lines(s)[i], "#") && !StartsWith(Lines(s)[i], "*")
    ensures ParseText(s) == s
  {
    MarkerFreeLines(Lines(s));
    MarkerFreeNoBold(s);
    ParseTextPerLine(s);
    var r := ParseText(s);
    assert Lines(r) == Lines(s);
    SameLinesSameText(r, s);
  }

  /** A single line with no Step 2 match is translated by the rule table. */
  lemma ParseTextOneLine(l: string)
    requires NoBreak(l) && !BoldFires(l)
    ensures ParseText(l) == TranslateLine(l)
  {
    LinesWhole(l);
    ParseTextPerLine(l);
    var r := ParseText(l);
    assert Lines(r) == [TranslateLine(l)] && Breaks(r) == [];
    UnlinesLines(r);
  }

  /** A single line on which Step 2 fires keeps Step 2's output: the later
      steps see a line starting with `<`. */
  lemma ParseTextOneBoldLine(l: string)
    requires NoBreak(l) && BoldFires(l)
    ensures ParseText(l) == Step2(l)
  {
    RulesWellFormed();
    ScanSingleLine(HeadingRule, l);
    var x := Step2(l);
    var k := 1 + WordRun(l[1..]);
    assert x == BoldOpen + l[1..k] + SpanClose + l[k..];
    NoBreakSlice(l, 1, k);
    NoBreakSlice(l, k, |l|);
    assert l[k..] == l[k..|l|];
    NoBreakJoin(BoldOpen, l[1..k], SpanClose, l[k..]);
    assert RuleLine(HeadingRule, l) == l by {
      assert l[..1][0] == '*';
    }
    assert x[..2] == "<s" && x[..3] == "<sp";
    ScanSingleLine(AlertRule, x);
    ScanSingleLine(UnderlineRule, x);
  }

  /** A line-anchored step leaves alone a text none of whose lines starts
      with the first character of its marker. */
  lemma ScanKeeps(r: LineRule, t: string)
    requires WellFormed(r)
    requires forall i :: 0 <= i < |Lines(t)| ==> !StartsWith(Lines(t)[i], r.marker[..1])
    ensures Scan(r, t) == t
  {
    var ls := Lines(t);
    forall i | 0 <= i < |ls| ensures RuleLine(r, ls[i]) == ls[i] && ls[i] != r.marker {
      PrefixOfPrefix(ls[i], r.marker, 1);
    }
    ScanLines(r, t);
    SameLinesSameText(Scan(r, t), t);
  }

  /** The rule table on a line of each marker form. */
  lemma TranslateMarked(x: string)
    ensures TranslateLine("#" + x) == H1Open + x + H1Close
    ensures TranslateLine("* " + x) == "* " + x
    ensures TranslateLine("** " + x) == AlertOpen + x + SpanClose
    ensures TranslateLine("*** " + x) == UnderlineOpen + x + SpanClose
  {
    var h, b, a, u := "#" + x, "* " + x, "** " + x, "*** " + x;
    assert h[..1] == "#" && h[1..] == x;
    assert b[..1] == "*" && b[1] == ' ';
    assert a[..2] == "**" && a[2] == ' ' && a[3..] == x;
    assert u[..3] == "***" && u[3] == ' ' && u[4..] == x;
  }

  /** The rule table applied to every line. */
  function TranslateLines(ls: seq<string>): (ts: seq<string>)
    ensures |ts| == |ls| && forall i :: 0 <= i < |ls| ==> ts[i] == TranslateLine(ls[i])
  {
    if ls == [] then [] else [TranslateLine(ls[0])] + TranslateLines(ls[1..])
  }

  /** The rule table keeps a line on one line. */
  lemma TranslateLineNoBreak(l: string)
    requires NoBreak(l)
    ensures NoBreak(TranslateLine(l))
  {
    RulesWellFormed();
    StepsComposeToTable(l);
    RuleLineNoBreak(HeadingRule, l);
    RuleLineNoBreak(AlertRule, RuleLine(HeadingRule, l));
    RuleLineNoBreak(UnderlineRule, RuleLine(AlertRule, RuleLine(HeadingRule, l)));
  }

  /** Translated lines stay lines. */
  lemma TranslateLinesNoBreak(ls: seq<string>)
    requires forall i :: 0 <= i < |ls| ==> NoBreak(ls[i])
    ensures forall i :: 0 <= i < |ls| ==> NoBreak(TranslateLines(ls)[i])
  {
    forall i | 0 <= i < |ls| ensures NoBreak(TranslateLines(ls)[i]) {
      TranslateLineNoBreak(ls[i]);
    }
  }

  /** Blocks the rule table translates inside a note: each on one line,
      Step 2 does not fire on their join, and none but the last is a bare
      `**` or `***`. */
  predicate PlainBlocks(ls: seq<string>) {
    |ls| >= 1 && (forall i :: 0 <= i < |ls| ==> NoBreak(ls[i]))
    && !BoldFires(JoinLines(ls))
    && forall i :: 0 <= i < |ls| - 1 ==> ls[i] != "**" && ls[i] != "***"
  }

  /** Such blocks joined by line feeds: parseText translates each block by
      the rule table and keeps the line feeds. */
  lemma TranslatedLinesOfJoin(ls: seq<string>)
    requires PlainBlocks(ls)
    ensures Lines(ParseText(JoinLines(ls))) == TranslateLines(ls)
    ensures forall i :: 0 <= i < |Breaks(ParseText(JoinLines(ls)))| ==> Breaks(ParseText(JoinLines(ls)))[i] == '\n'
  {
    var s := JoinLines(ls);
    LinesOfJoin(ls);
    ParseTextPerLine(s);
  }

  /** The same, as text: the translated blocks joined by line feeds. */
  lemma ParseTextJoin(ls: seq<string>)
    requires PlainBlocks(ls)
    ensures ParseText(JoinLines(ls)) == JoinLines(TranslateLines(ls))
  {
    TranslatedLinesOfJoin(ls);
    JoinOfTranslated(ParseText(JoinLines(ls)), ls);
  }

  /** A text whose lines are the translated blocks, separated by line feeds,
      is their join. */
  lemma JoinOfTranslated(p: string, ls: seq<string>)
    requires |ls| >= 1 && forall i :: 0 <= i < |ls| ==> NoBreak(ls[i])
    requires Lines(p) == TranslateLines(ls) && forall i :: 0 <= i < |Breaks(p)| ==> Breaks(p)[i] == '\n'
    ensures p == JoinLines(TranslateLines(ls))
  {
    TranslateLinesNoBreak(ls);
    SameLinesSameJoin(p, TranslateLines(ls));
  }
}
