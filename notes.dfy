/**
 * The saved-notes list: what the browser's storage slot `editorContent`
 * holds, how the component loads it once on mount, and how Save appends the
 * editor's plain text to it and the translated text to the list on screen.
 */
module Notes {
  import opened Wrappers
  import opened Text
  import opened Translator

  /** One element of a parsed JSON array: a string, or any other JSON value. */
  datatype Value = Str(s: string) | Other

  /** What `JSON.parse(localStorage.getItem('editorContent') || '[]')` sees.
      `Missing` is an absent slot or an empty string (both read as `[]`);
      `Malformed` makes `JSON.parse` throw; `JsonString` is a JSON string at top
      level; `Scalar` is a number, boolean, `null` or object. */
  datatype Stored = Missing | Malformed | Array(elems: seq<Value>) | JsonString(t: string) | Scalar

  predicate AllStrings(vs: seq<Value>) {
    forall i :: 0 <= i < |vs| ==> vs[i].Str?
  }

  /** Strings as JSON array elements. */
  function Strs(xs: seq<string>): (vs: seq<Value>)
    ensures |vs| == |xs| && forall i :: 0 <= i < |xs| ==> vs[i] == Str(xs[i])
  {
    if xs == [] then [] else [Str(xs[0])] + Strs(xs[1..])
  }

  /** The strings of an array whose elements all are strings. */
  function StringsOf(vs: seq<Value>): (xs: seq<string>)
    requires AllStrings(vs)
    ensures |xs| == |vs| && forall i :: 0 <= i < |vs| ==> Str(xs[i]) == vs[i]
  {
    if vs == [] then [] else [vs[0].s] + StringsOf(vs[1..])
  }

  /** Spreading a string iterates its characters: each becomes a one-character string. */
  function CharStrings(t: string): (xs: seq<string>)
    ensures |xs| == |t| && forall i :: 0 <= i < |t| ==> xs[i] == [t[i]]
  {
    if t == [] then [] else [[t[0]]] + CharStrings(t[1..])
  }

  /** The texts the mount effect renders, or `None` when it leaves the list
      alone: not an array, a parse error, or an element `parseText` cannot
      take (calling `replace` on a non-string throws). */
  function Loaded(s: Stored): (r: Option<seq<string>>)
    ensures r.Some? <==> s.Missing? || (s.Array? && AllStrings(s.elems))
    ensures r.Some? && s.Missing? ==> r.value == []
    ensures r.Some? && s.Array? ==> Strs(r.value) == s.elems
  {
    match s
    case Missing => Some([])
    case Array(vs) =>
      if AllStrings(vs) then
        StringsOfStrs(vs);
        Some(StringsOf(vs))
      else None
    case _ => None
  }

  /** The existing array Save spreads, or `None` when building
      `[...existingContent, plainText]` throws: a parse error, or a value
      that is not iterable. A top-level string is iterable. */
  function Existing(s: Stored): (r: Option<seq<Value>>)
    ensures r.None? <==> s.Malformed? || s.Scalar?
    ensures Loaded(s).Some? ==> r == Some(Strs(Loaded(s).value))
    ensures s.Array? ==> r == Some(s.elems)
    ensures s.JsonString? ==>
      r.Some? && |r.value| == |s.t| && forall i :: 0 <= i < |s.t| ==> r.value[i] == Str([s.t[i]])
  {
    match s
    case Missing => Some([])
    case Array(vs) => Some(vs)
    case JsonString(t) => Some(Strs(CharStrings(t)))
    case _ => None
  }

  /** The list on screen: `parseText` of every loaded text. */
  function Render(xs: seq<string>): (r: seq<string>)
    ensures |r| == |xs| && forall i :: 0 <= i < |xs| ==> r[i] == ParseText(xs[i])
  {
    if xs == [] then [] else [ParseText(xs[0])] + Render(xs[1..])
  }

  lemma StringsOfStrs(vs: seq<Value>)
    requires AllStrings(vs)
    ensures Strs(StringsOf(vs)) == vs
  {
  }

  /** Writing strings into an array and reading them back gives them back. */
  lemma StrsRoundTrip(xs: seq<string>)
    ensures AllStrings(Strs(xs)) && StringsOf(Strs(xs)) == xs
  {
  }

  /** Rendering one more text appends its translation. */
  lemma RenderAppend(xs: seq<string>, t: string)
    ensures Render(xs + [t]) == Render(xs) + [ParseText(t)]
  {
  }

  /** Appending a string to a loadable slot: the next load sees the old
      texts and then the new one. */
  lemma AppendLoads(s: Stored, p: string)
    requires Loaded(s).Some?
    ensures Loaded(Array(Existing(s).value + [Str(p)])) == Some(Loaded(s).value + [p])
  {
    var xs := Loaded(s).value;
    assert Existing(s).value + [Str(p)] == Strs(xs + [p]);
    StrsRoundTrip(xs + [p]);
  }

  /** Saving over a top-level JSON string: the string is spread into its
      characters, so the next load shows one note per character. */
  lemma SaveOverTextExplodes(t: string, p: string)
    ensures Loaded(Array(Existing(JsonString(t)).value + [Str(p)])) == Some(CharStrings(t) + [p])
  {
    assert Existing(JsonString(t)).value + [Str(p)] == Strs(CharStrings(t) + [p]);
    StrsRoundTrip(CharStrings(t) + [p]);
  }

  /** Saving over an array holding a non-string succeeds, but from then on
      the mount effect throws and shows nothing from storage. */
  lemma SaveOverOtherPoisons(vs: seq<Value>, p: string)
    requires !AllStrings(vs)
    ensures Existing(Array(vs)).Some? && Loaded(Array(vs + [Str(p)])).None?
  {
    var i :| 0 <= i < |vs| && !vs[i].Str?;
    assert (vs + [Str(p)])[i] == vs[i];
  }

  /** Saving an untouched editor stores the empty text, and the list shows an
      empty entry: Save does not skip an empty editor. */
  lemma EmptyNoteSaved()
    ensures JoinLines([""]) == "" && ParseText(JoinLines([""])) == ""
  {
    LinesWhole("");
    ParseTextIdentity("");
  }

  /** The component's state: the storage slot, the rendered list
      (`savedContent`) and the editor's blocks (`editorState`). */
  class NoteList {
    var store: Stored
    var rendered: seq<string>
    var blocks: seq<string>

    /** An editor state always has at least one block. */
    ghost predicate Valid()
      reads this
    {
      |blocks| >= 1
    }

    /** The rendered list is what loading the slot would show. */
    ghost predicate Synced()
      reads this
    {
      Loaded(store).Some? && rendered == Render(Loaded(store).value)
    }

    /** `getPlainText()`: the blocks joined by line feeds. */
    function PlainText(): string
      reads this
      requires Valid()
    {
      JoinLines(blocks)
    }

    /** First render: an empty list and an empty editor, over whatever the slot holds. */
    constructor (stored: Stored)
      ensures Valid()
      ensures store == stored && rendered == [] && blocks == [""]
    {
      store := stored;
      rendered := [];
      blocks := [""];
    }

    /** The mount effect: replace the list by the rendered stored texts, or keep it. */
    method Load()
      modifies this`rendered
      ensures Loaded(store).Some? ==> rendered == Render(Loaded(store).value) && Synced()
      ensures Loaded(store).None? ==> rendered == old(rendered)
    {
      var r := Loaded(store);
      if r.Some? {
        rendered := Render(r.value);
      }
    }

    /** `handleEditorChange`: the editor takes the new state. */
    method Edit(newBlocks: seq<string>)
      requires |newBlocks| >= 1
      modifies this`blocks
      ensures Valid() && blocks == newBlocks
    {
      blocks := newBlocks;
    }

    /** `saveContent`. `writeOk` is whether `localStorage.setItem` succeeds.
        On success the plain text is appended to the slot, its translation to
        the list, and the editor is emptied; on any failure nothing changes. */
    method Save(writeOk: bool) returns (ok: bool)
      requires Valid()
      modifies this
      ensures Valid()
      ensures ok <==> writeOk && Existing(old(store)).Some?
      ensures ok ==> store == Array(Existing(old(store)).value + [Str(old(PlainText()))])
      ensures ok ==> rendered == old(rendered) + [ParseText(old(PlainText()))] && blocks == [""]
      ensures !ok ==> store == old(store) && rendered == old(rendered) && blocks == old(blocks)
      ensures old(Synced()) ==> Synced()
    {
      var plain := PlainText();
      var formatted := ParseText(plain);
      var existing := Existing(store);
      if existing.None? || !writeOk {
        return false;
      }
      ghost var before := Loaded(store);
      store := Array(existing.value + [Str(plain)]);
      if before.Some? {
        AppendLoads(old(store), plain);
        RenderAppend(before.value, plain);
      }
      rendered := rendered + [formatted];
      blocks := [""];
      ok := true;
    }
  }

  /** Open the page over `stored`, type `typed`, press Save, then open the page
      again over the new slot: the second page shows what the first showed. */
  method SaveThenReload(stored: Stored, typed: seq<string>, writeOk: bool)
    returns (ok: bool, shown: seq<string>, reloaded: seq<string>)
    requires |typed| >= 1
    ensures ok <==> writeOk && Existing(stored).Some?
    ensures Loaded(stored).Some? ==> shown == reloaded
    ensures Loaded(stored).Some? && ok ==> shown == Render(Loaded(stored).value) + [ParseText(JoinLines(typed))]
    ensures !ok && Loaded(stored).Some? ==> shown == Render(Loaded(stored).value)
  {
    var page := new NoteList(stored);
    page.Load();
    page.Edit(typed);
    ok := page.Save(writeOk);
    shown := page.rendered;
    var again := new NoteList(page.store);
    again.Load();
    reloaded := again.rendered;
    if ok && Loaded(stored).Some? {
      RenderAppend(Loaded(stored).value, JoinLines(typed));
    }
  }
}
