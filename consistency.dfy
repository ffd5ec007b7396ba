/**
 * How the live decorator and the batch translator relate: where they agree
 * on a one-line block, and the inputs on which the translator does something
 * other than the rule table suggests.
 */
module Consistency {
  import opened Wrappers
  import opened Text
  import opened Decorator
  import opened Translator

  /** A one-line block the decorator styles, other than bold, is translated by the rule table. */
  lemma MarkedLineByTable(b: string, t: Treatment)
    requires NoBreak(b) && t != Bold && StartsWith(b, LiveMarker(t))
    ensures ParseText(b) == TranslateLine(b)
  {
    MarkerChars(b, t);
    ParseTextOneLine(b);
  }

  /** The rule table on a block that starts with a live marker other than bold. */
  lemma TableOnMarker(b: string, t: Treatment)
    requires t != Bold && StartsWith(b, LiveMarker(t))
    ensures t == Heading ==> TranslateLine(b) == H1Open + b[1..] + H1Close
    ensures t == Alert ==> TranslateLine(b) == AlertOpen + b[3..] + SpanClose
    ensures t == Underline ==> TranslateLine(b) == UnderlineOpen + b[4..] + SpanClose
  {
    MarkerChars(b, t);
    if t == Heading {
      assert b[..1] == "#";
    } else if t == Alert {
      assert b[0] == '*' && b[1] == '*' && b[2] == ' ';
      assert b[..2] == "**";
    } else {
      assert b[0] == '*' && b[1] == '*' && b[2] == '*' && b[3] == ' ';
      assert b[..3] == "***";
    }
  }

  /** On a block without line terminators that the decorator styles, the
      translator produces that treatment's element around the text after the
      marker (for Heading, after `#` only: the space is kept). For Bold the
      batch rule wraps only the leading run of `[\w\s]`. */
  lemma LiveAndBatchAgree(b: string)
    requires NoBreak(b) && Decorate(b).Some?
    ensures Decorate(b).value.treatment == Heading ==> ParseText(b) == H1Open + b[1..] + H1Close
    ensures Decorate(b).value.treatment == Alert ==> ParseText(b) == AlertOpen + b[3..] + SpanClose
    ensures Decorate(b).value.treatment == Underline ==> ParseText(b) == UnderlineOpen + b[4..] + SpanClose
    ensures Decorate(b).value.treatment == Bold ==>
      var k := 1 + WordRun(b[1..]);
      2 <= k && ParseText(b) == BoldOpen + b[1..k] + SpanClose + b[k..]
  {
    var t := Decorate(b).value.treatment;
    if t == Bold {
      MarkerChars(b, t);
      ParseTextOneBoldLine(b);
    } else {
      MarkedLineByTable(b, t);
      TableOnMarker(b, t);
    }
  }

  /** A `*** ` line gets the underline treatment in both adapters, never the bold one. */
  lemma UnderlineNotBold(x: string)
    requires NoBreak(x)
    ensures Decorate("*** " + x) == Some(Decoration(Underline, 0, |x| + 4))
    ensures ParseText("*** " + x) == UnderlineOpen + x + SpanClose
  {
    var b := "*** " + x;
    assert b[..4] == "*** " && b[4..] == x;
    DecorateExactly(b, Underline);
    LiveAndBatchAgree(b);
  }

  /** `#` without a space: no live decoration, but a heading on save. */
  lemma HashWithoutSpace(x: string)
    requires NoBreak(x) && !StartsWith(x, " ")
    ensures Decorate("#" + x) == None
    ensures ParseText("#" + x) == H1Open + x + H1Close
  {
    var b := "#" + x;
    assert b[0] == '#' && b[1..] == x;
    assert |x| > 0 ==> x[0] != ' ' by {
      if |x| > 0 {
        assert x[..1] == [x[0]];
      }
    }
    forall t: Treatment ensures !StartsWith(b, LiveMarker(t)) {
      MarkerChars(b, t);
    }
    ParseTextOneLine(b);
  }

  /** `*` without a space before a run of `[\w\s]`: no live decoration, but bold on save. */
  lemma StarWithoutSpace(x: string)
    requires NoBreak(x) && |x| >= 1 && x[0] != ' '
    requires forall i :: 0 <= i < |x| ==> IsWordOrSpace(x[i])
    ensures Decorate("*" + x) == None
    ensures ParseText("*" + x) == BoldOpen + x + SpanClose
  {
    var b := "*" + x;
    assert b[0] == '*' && b[1..] == x && b[1] == x[0];
    forall t: Treatment ensures !StartsWith(b, LiveMarker(t)) {
      MarkerChars(b, t);
    }
    ParseTextOneBoldLine(b);
    Step2Wraps(b, |b|);
  }

  /** The rule table on the four marker forms. */
  lemma FourMarkerLines(a: string, b: string, c: string, d: string)
    ensures TranslateLines(["# " + a, "* " + b, "** " + c, "*** " + d])
      == [H1Open + " " + a + H1Close, "* " + b, AlertOpen + c + SpanClose, UnderlineOpen + d + SpanClose]
  {
    TranslateFour("# " + a, "* " + b, "** " + c, "*** " + d);
    assert TranslateLine("# " + a) == H1Open + " " + a + H1Close by {
      assert "# " + a == "#" + (" " + a);
      TranslateMarked(" " + a);
    }
    assert TranslateLine("* " + b) == "* " + b by {
      TranslateMarked(b);
    }
    assert TranslateLine("** " + c) == AlertOpen + c + SpanClose by {
      TranslateMarked(c);
    }
    assert TranslateLine("*** " + d) == UnderlineOpen + d + SpanClose by {
      TranslateMarked(d);
    }
  }

  /** The rule table on a note of four blocks, block by block. */
  lemma TranslateFour(l0: string, l1: string, l2: string, l3: string)
    ensures TranslateLines([l0, l1, l2, l3])
      == [TranslateLine(l0), TranslateLine(l1), TranslateLine(l2), TranslateLine(l3)]
  {
  }

  /** A note in the four marker forms, one per block: after a leading heading
      line Step 2 cannot fire, so the `* ` line is saved without the bold span. */
  lemma FourMarkerNote(a: string, b: string, c: string, d: string)
    requires NoBreak(a) && NoBreak(b) && NoBreak(c) && NoBreak(d)
    ensures ParseText(JoinLines(["# " + a, "* " + b, "** " + c, "*** " + d]))
      == JoinLines([H1Open + " " + a + H1Close, "* " + b, AlertOpen + c + SpanClose, UnderlineOpen + d + SpanClose])
  {
    var ls := ["# " + a, "* " + b, "** " + c, "*** " + d];
    assert ls[0][..1] == "#" && ls[0][0] == '#';
    assert ls[1][1] == ' ' && ls[2][2] == ' ';
    ParseTextJoin(ls);
    FourMarkerLines(a, b, c, d);
  }

  /** A note whose first block is underlined: Step 2 sees `**` and does not
      fire, so each block is translated by the table. */
  lemma UnderlineFirstBlock(x: string, y: string)
    requires NoBreak(x) && NoBreak(y)
    ensures ParseText(JoinLines(["*** " + x, y])) == JoinLines([UnderlineOpen + x + SpanClose, TranslateLine(y)])
  {
    var l0 := "*** " + x;
    var ls := [l0, y];
    JoinTwo(l0, y);
    assert JoinLines(ls)[1] == l0[1] == '*';
    assert |l0| >= 4;
    ParseTextJoin(ls);
    assert TranslateLines(ls) == [TranslateLine(l0), TranslateLine(y)] by {
      assert ls[1..] == [y];
    }
    TranslateMarked(x);
  }

  /** Neither block of the bold scenario starts with `#`. */
  lemma BoldScenarioStep1(a: string, b: string)
    requires NoBreak(a) && NoBreak(b)
    ensures Step1(("* " + a) + "\n" + ("** " + b)) == ("* " + a) + "\n" + ("** " + b)
  {
    RulesWellFormed();
    var l0, l1 := "* " + a, "** " + b;
    JoinTwo(l0, l1);
    LinesOfJoin([l0, l1]);
    assert l0[..1] == "*" && l1[..1] == "*";
    ScanKeeps(HeadingRule, JoinLines([l0, l1]));
  }

  /** The run after the first `*` is ` `, the first block's text and the line feed. */
  lemma BoldScenarioStep2(a: string, b: string)
    requires forall i :: 0 <= i < |a| ==> IsWordOrSpace(a[i])
    ensures Step2(("* " + a) + "\n" + ("** " + b)) == (BoldOpen + " " + a) + "\n" + (SpanClose + "** " + b)
  {
    var s := ("* " + a) + "\n" + ("** " + b);
    var k := |a| + 3;
    assert s[1..k] == " " + a + "\n" && s[k..] == "** " + b;
    Step2Wraps(s, k);
  }

  /** No block of the bold result starts with `*`: Steps 3 and 4 keep it. */
  lemma BoldScenarioSteps34(a: string, b: string)
    requires NoBreak(a) && NoBreak(b)
    ensures Step4(Step3((BoldOpen + " " + a) + "\n" + (SpanClose + "** " + b)))
      == (BoldOpen + " " + a) + "\n" + (SpanClose + "** " + b)
  {
    RulesWellFormed();
    var x0, x1 := BoldOpen + " " + a, SpanClose + "** " + b;
    var x := JoinLines([x0, x1]);
    JoinTwo(x0, x1);
    NoBreakJoin(BoldOpen, " ", a, "");
    NoBreakJoin(SpanClose, "** ", b, "");
    assert x0 + "" == x0 && x1 + "" == x1;
    LinesOfJoin([x0, x1]);
    assert x0[..1] == "<" && x1[..1] == "<";
    ScanKeeps(AlertRule, x);
    ScanKeeps(UnderlineRule, x);
  }

  /** A Step 2 match that runs over a line feed puts `</span>` in front of the
      next line, so Step 3 no longer sees that line's `** ` marker. */
  lemma BoldSwallowsLineFeed(a: string, b: string)
    requires NoBreak(a) && NoBreak(b)
    requires forall i :: 0 <= i < |a| ==> IsWordOrSpace(a[i])
    ensures ParseText(JoinLines(["* " + a, "** " + b])) == JoinLines([BoldOpen + " " + a, SpanClose + "** " + b])
  {
    JoinTwo("* " + a, "** " + b);
    JoinTwo(BoldOpen + " " + a, SpanClose + "** " + b);
    BoldScenarioStep1(a, b);
    BoldScenarioStep2(a, b);
    BoldScenarioSteps34(a, b);
  }

  /** A block that is exactly `**` before another block: `\s` takes the line
      feed, so the red span holds the next block and the `**` line disappears. */
  lemma BareAlertMarkerTakesNextLine(a: string)
    requires NoBreak(a) && !StartsWith(a, "#")
    ensures ParseText(JoinLines(["**", a])) == AlertOpen + a + SpanClose
  {
    RulesWellFormed();
    var s := JoinLines(["**", a]);
    JoinTwo("**", a);
    LinesOfJoin(["**", a]);
    ScanKeeps(HeadingRule, s);
    assert !BoldFires(s);
    assert s[3..] == a && s[..2] == "**" && IsSpace(s[2]);
    assert MatchesAt(AlertRule, s);
    LineEndWhole(a);
    assert s[3..|s|] == a && s[|s|..] == [];
    assert Scan(AlertRule, s[|s|..]) == [] && ScanInLine(AlertRule, s[|s|..]) == [];
    var x := AlertOpen + a + SpanClose;
    assert Step3(s) == x;
    LinesWhole(x);
    assert x[..1] == "<";
    ScanKeeps(UnderlineRule, x);
  }
}
