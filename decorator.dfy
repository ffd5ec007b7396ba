/**
 * The live decorator: four strategies of a composite decorator, each of which
 * looks at the plain text of one block and, when the text starts with its
 * marker, reports the whole block as carrying its treatment.
 */
module Decorator {
  import opened Wrappers
  import opened Text

  /** The four presentations of the rule table. */
  datatype Treatment = Heading | Bold | Alert | Underline

  /** The literal prefix a strategy tests with `startsWith`. */
  function LiveMarker(t: Treatment): string {
    match t
    case Heading => "# "
    case Bold => "* "
    case Alert => "** "
    case Underline => "*** "
  }

  /** A styled range `[start, end)` of a block, reported through the strategy's callback. */
  datatype Decoration = Decoration(treatment: Treatment, start: nat, end: nat)

  /** The strategies in the order the composite decorator lists them. */
  const StrategyOrder: seq<Treatment> := [Heading, Bold, Alert, Underline]

  /** One strategy: `if (text.startsWith(marker)) callback(0, text.length)`. */
  function Strategy(t: Treatment, text: string): Option<Decoration> {
    if StartsWith(text, LiveMarker(t)) then Some(Decoration(t, 0, |text|)) else None
  }

  /** Every callback the strategies `ts` make for one block, in order: exactly
      the whole-block ranges of the strategies whose marker the text starts with. */
  function Collect(ts: seq<Treatment>, text: string): (ds: seq<Decoration>)
    ensures forall i :: 0 <= i < |ds| ==>
      ds[i].treatment in ts && ds[i] == Decoration(ds[i].treatment, 0, |text|)
      && StartsWith(text, LiveMarker(ds[i].treatment))
    ensures forall i :: 0 <= i < |ts| && StartsWith(text, LiveMarker(ts[i])) ==>
      Decoration(ts[i], 0, |text|) in ds
  {
    if ts == [] then []
    else
      var rest := Collect(ts[1..], text);
      assert forall t :: t in ts[1..] ==> t in ts;
      match Strategy(ts[0], text)
      case Some(d) => [d] + rest
      case None => rest
  }

  /** All the decorations of one block. */
  function Decorations(text: string): seq<Decoration> {
    Collect(StrategyOrder, text)
  }

  /** Which marker a text can start with, read off its first characters: the
      shorter markers end in a space where the longer ones still have a '*'. */
  function MarkerShape(text: string): Treatment {
    if |text| > 0 && text[0] == '#' then Heading
    else if |text| > 1 && text[1] == ' ' then Bold
    else if |text| > 2 && text[2] == ' ' then Alert
    else Underline
  }

  lemma MarkerDeterminesShape(text: string, t: Treatment)
    requires StartsWith(text, LiveMarker(t))
    ensures MarkerShape(text) == t
  {
    var m := LiveMarker(t);
    var p := text[..|m|];
    assert forall i :: 0 <= i < |m| ==> text[i] == p[i] == m[i];
  }

  /** No block text starts with two different live markers. */
  lemma MarkersExclusive(text: string, t1: Treatment, t2: Treatment)
    requires StartsWith(text, LiveMarker(t1)) && StartsWith(text, LiveMarker(t2))
    ensures t1 == t2
  {
    MarkerDeterminesShape(text, t1);
    MarkerDeterminesShape(text, t2);
  }

  /** A run of distinct strategies reports at most one range for any block. */
  lemma {:induction false} CollectAtMostOne(ts: seq<Treatment>, text: string)
    requires forall i, j :: 0 <= i < j < |ts| ==> ts[i] != ts[j]
    ensures |Collect(ts, text)| <= 1
  {
    if ts != [] {
      var rest := Collect(ts[1..], text);
      CollectAtMostOne(ts[1..], text);
      if StartsWith(text, LiveMarker(ts[0])) && rest != [] {
        MarkersExclusive(text, ts[0], rest[0].treatment);
      }
    }
  }

  /** The block's decoration: at most one strategy fires, and when one does it
      styles the whole, nonempty block; no decoration means no marker matched. */
  function Decorate(text: string): (r: Option<Decoration>)
    ensures |Decorations(text)| <= 1
    ensures r.Some? ==>
      (0 == r.value.start < r.value.end == |text| && StartsWith(text, LiveMarker(r.value.treatment)))
    ensures r.None? <==> forall t :: !StartsWith(text, LiveMarker(t))
  {
    CollectAtMostOne(StrategyOrder, text);
    var ds := Decorations(text);
    assert StrategyOrder[0] == Heading && StrategyOrder[1] == Bold;
    assert StrategyOrder[2] == Alert && StrategyOrder[3] == Underline;
    if ds == [] then None else Some(ds[0])
  }

  /** A block is decorated with a treatment exactly when it starts with that treatment's marker. */
  lemma DecorateExactly(text: string, t: Treatment)
    ensures Decorate(text) == Some(Decoration(t, 0, |text|)) <==> StartsWith(text, LiveMarker(t))
  {
    if StartsWith(text, LiveMarker(t)) {
      var r := Decorate(text);
      MarkersExclusive(text, t, r.value.treatment);
    }
  }

  /** A text that starts with a marker has that marker's characters at its front. */
  lemma MarkerChars(text: string, t: Treatment)
    ensures StartsWith(text, LiveMarker(t)) ==>
      forall i :: 0 <= i < |LiveMarker(t)| ==> text[i] == LiveMarker(t)[i]
  {
    var m := LiveMarker(t);
    if StartsWith(text, m) {
      assert forall i :: 0 <= i < |m| ==> text[i] == text[..|m|][i];
    }
  }
}
