# A model of the Markdown-style note editor

The editor component `MyEditor` lets a user type a note and marks it up in
two ways:

- **Live decorator.** While the user types, draft-js asks the decorator to
  style each block. A block styled this way starts with `# ` (heading),
  `* ` (bold), `** ` (red "alert") or `*** ` (underline).
- **Batch translator.** On Save, `parseText` turns the note's plain text
  into HTML through four regular-expression replacements.

Save appends the raw text to a JSON array in the browser's storage slot
`editorContent`. It also appends the HTML to the list shown under the
editor. When the page mounts, that list is rebuilt from the slot.

The model has six modules:

- `Wrappers`: the `Option` type.

- `Text`: character classes as JavaScript regular expressions define them.
  - A line terminator is \n, \r, U+2028 or U+2029.
  - `\s` is the full whitespace set and `\w` is `[A-Za-z0-9_]`.
  - Splitting into lines (`Lines`, `Breaks`) and draft-js's `getPlainText` (`JoinLines`).
- `Decorator`: the four strategies of the composite decorator and the styling of one block.
- `Translator`: the four replacements of `parseText`.
  - Steps 1, 3 and 4 use the flags `gm`. They are one rule scanned from left to right, where `^` holds at the text start and after every line terminator.
  - Step 2 has no flags. It can rewrite only a prefix of the whole text.
  - Step 1 is proved equal to a per-line rewrite on every text. Steps 3 and 4 are, unless a line before a terminator is the bare marker `**` or `***`, where `\s` takes the terminator.
  - Step 2 is not per-line: it wraps the longest `[\w\s]` run after a leading `*`, which can cross lines.
  - When Step 2 does not fire and no line before the last is a bare `**` or `***`, the whole of `parseText` equals a per-line rule table.
- `Consistency`: where the live and batch markers agree, and where they differ.
- `Notes`: the storage slot and the component's `NoteList` state (a class with the slot, the rendered list and the editor's blocks), with its mount, edit and save handlers.

Where the documented behaviour of the editor and its code disagree, the model follows the code:

- A `*` without a following space still gets the bold span on Save, provided a `[\w\s]` character follows it (`Consistency.StarWithoutSpace`).
- Step 2 only looks at index 0 of the whole text. So a `* ` line after a leading `#` line is saved without the bold span (`Consistency.FourMarkerNote`).
- The live heading uses class `text-3xl` and the saved heading uses `text-4xl`. The model keeps the saved markup exactly and the live styling only as a treatment.
- `#` needs no space on Save, and the space is kept inside the heading (`Consistency.HashWithoutSpace`).

## Model

| member | source | states |
|---|---|---|
| Decorator.Strategy | src/assets/components/MyEditor.tsx:8-49 | one strategy reports the whole block exactly when its text starts with the strategy's marker (stated for all strategies by `Decorator.Collect` and `Decorator.DecorateExactly`) |
| Text.JoinLines | src/assets/components/MyEditor.tsx:73 | `getPlainText` joins the blocks with line feeds; `Text.LinesOfJoin` proves the join splits back into the blocks |
| Translator.Scan | src/assets/components/MyEditor.tsx:90-105 | a global multiline `replace` from a line start, matches never overlapping; `Translator.ScanPerLine` and `Translator.ScanLines` prove it rewrites line by line |
| Translator.ScanInLine | src/assets/components/MyEditor.tsx:90-105 | the same scan where `^` does not hold: it copies up to the line's end and resumes at the next line start (`Translator.ScanRestOfLine`) |
| Translator.Step1 | src/assets/components/MyEditor.tsx:90-93 | the heading replacement as a scan of the heading rule; `Translator.Step1PerLine` states its effect on every text |
| Translator.Step3 | src/assets/components/MyEditor.tsx:98-101 | the red-span replacement as a scan of the alert rule; `Translator.Step3PerLine` states its effect |
| Translator.Step4 | src/assets/components/MyEditor.tsx:102-105 | the underline replacement as a scan of the underline rule; `Translator.Step4PerLine` states its effect |
| Translator.ParseText | src/assets/components/MyEditor.tsx:88-107 | the four replacements in source order; `Translator.ParseTextPerLine`, `Translator.ParseTextIdentity`, `Translator.ParseTextOneBoldLine` and `Translator.ParseTextJoin` state what it computes |
| Notes.NoteList.PlainText | src/assets/components/MyEditor.tsx:73 | the editor's plain text is the join of its blocks, so `Text.LinesOfJoin` gives the blocks back from it |
| Decorator.Collect | src/assets/components/MyEditor.tsx:5-51 | the callbacks the strategies make for a block are exactly the whole-block ranges of the strategies whose marker the block starts with (both directions) |
| Decorator.CollectAtMostOne | src/assets/components/MyEditor.tsx:5-51 | the four strategies never report two ranges for one block: the markers are mutually exclusive |
| Decorator.Decorate | src/assets/components/MyEditor.tsx:5-51 | a block gets at most one decoration; a decoration covers the whole, nonempty block and its marker is a prefix of the block; there is no decoration exactly when no marker is a prefix |
| Decorator.DecorateExactly | src/assets/components/MyEditor.tsx:8-12 | a block is decorated with a given treatment if and only if it starts with that treatment's marker |
| Decorator.MarkersExclusive | src/assets/components/MyEditor.tsx:10-43 | no text starts with two different markers among `# `, `* `, `** `, `*** ` |
| Text.LinesOfJoin | src/assets/components/MyEditor.tsx:73 | the plain text of a document splits back into its blocks, with one line feed between neighbours |
| Text.UnlinesLines | src/assets/components/MyEditor.tsx:88-107 | splitting a text into lines and terminators and joining them again gives the text back |
| Translator.ScanPerLine | src/assets/components/MyEditor.tsx:90-93 | a global multiline replacement `^marker(.*$)` scanned left to right equals the rule applied to each line, with every terminator kept, unless a line before the last is the bare marker of a rule that needs `\s` |
| Translator.ScanLines | src/assets/components/MyEditor.tsx:98-105 | after the scan, the lines of the result are the rewritten lines and the terminators are unchanged |
| Translator.Step1PerLine | src/assets/components/MyEditor.tsx:90-93 | Step 1 turns each line starting with `#` into the heading element around the rest of that line and leaves all other lines and the terminators alone |
| Translator.Step2 | src/assets/components/MyEditor.tsx:94-97 | Step 2 changes the text if and only if it starts with `*` followed by a `[\w\s]` character |
| Translator.WordRun | src/assets/components/MyEditor.tsx:95 | the greedy `[\w\s]+` takes the longest run of word and whitespace characters, line terminators included |
| Translator.Step2Wraps | src/assets/components/MyEditor.tsx:94-97 | when the maximal run after the leading `*` ends at k, Step 2 wraps exactly indices 1..k in the bold span and keeps the rest |
| Translator.Step3PerLine | src/assets/components/MyEditor.tsx:98-101 | Step 3 turns each line `**`, whitespace, rest into the red span of the rest; lines starting with `***` stay unchanged |
| Translator.Step4PerLine | src/assets/components/MyEditor.tsx:102-105 | Step 4 turns each line `***`, whitespace, rest into the underline span of the rest |
| Translator.BoldFiresAfterStep1 | src/assets/components/MyEditor.tsx:90-97 | Step 2 fires after Step 1 exactly when it fires on the raw text |
| Translator.StepsComposeToTable | src/assets/components/MyEditor.tsx:88-107 | the three line-anchored steps in sequence translate a line by the rule table, longest marker first: no step rewrites a line an earlier step produced |
| Translator.ParseTextPerLine | src/assets/components/MyEditor.tsx:88-107 | when Step 2 does not fire and no line before the last is a bare `**` or `***`, parseText translates each line by the rule table and keeps every terminator |
| Translator.ParseTextJoin | src/assets/components/MyEditor.tsx:73-74 | for one-line blocks on whose join Step 2 does not fire, and with no bare `**` or `***` block before the last, parseText of the plain text is the line-feed join of the blocks translated by the rule table |
| Translator.ParseTextIdentity | src/assets/components/MyEditor.tsx:88-107 | parseText leaves unchanged a text in which no line starts with `#` or `*`, the empty text included |
| Translator.ParseTextOneBoldLine | src/assets/components/MyEditor.tsx:94-105 | on one line where Step 2 fires, Steps 1, 3 and 4 leave Step 2's output alone |
| Translator.TranslateLineNoBreak | src/assets/components/MyEditor.tsx:88-107 | translating a line never adds a line terminator |
| Consistency.LiveAndBatchAgree | src/assets/components/MyEditor.tsx:5-107 | on a one-line block the decorator styles, Save produces that treatment's element around the text after the marker; for bold, around the leading `[\w\s]` run |
| Consistency.UnderlineNotBold | src/assets/components/MyEditor.tsx:40-50 | a `*** ` block is underlined, never bold, both live and on Save |
| Consistency.HashWithoutSpace | src/assets/components/MyEditor.tsx:10 | a `#` block without a space gets no live style but becomes a heading on Save |
| Consistency.StarWithoutSpace | src/assets/components/MyEditor.tsx:94-97 | a `*` block without a space gets no live style but a bold span on Save |
| Consistency.UnderlineFirstBlock | src/assets/components/MyEditor.tsx:94-105 | a note whose first block is `*** ` + x: Step 2 does not fire, the first block becomes the underline span and the second is translated by the table |
| Consistency.FourMarkerNote | src/assets/components/MyEditor.tsx:88-107 | a note of the four marker forms: heading, unchanged `* ` line (Step 2 cannot fire after a leading `#`), red span, underline span |
| Consistency.BoldSwallowsLineFeed | src/assets/components/MyEditor.tsx:94-101 | a Step 2 run that crosses a line feed puts `</span>` before the next line, so its `** ` marker is no longer at a line start |
| Consistency.BareAlertMarkerTakesNextLine | src/assets/components/MyEditor.tsx:98-101 | a block that is exactly `**` before another block: `\s` takes the line feed and the red span holds the next block |
| Notes.Loaded | src/assets/components/MyEditor.tsx:59-69 | the mount effect renders a list exactly when the slot is missing or an array of strings, and then it renders those strings |
| Notes.Existing | src/assets/components/MyEditor.tsx:77-78 | Save can spread the slot unless it fails to parse or is not iterable; a slot the mount effect can load spreads into exactly the loaded texts; an array spreads into its elements; a top-level string spreads into one one-character string per character |
| Notes.Render | src/assets/components/MyEditor.tsx:63 | the list shows parseText of every stored text, in order |
| Notes.AppendLoads | src/assets/components/MyEditor.tsx:71-86 | after appending to a loadable slot, the next load sees the old texts and then the new one |
| Notes.SaveOverTextExplodes | src/assets/components/MyEditor.tsx:77-78 | Save over a top-level JSON string stores one entry per character before the new text |
| Notes.SaveOverOtherPoisons | src/assets/components/MyEditor.tsx:59-69 | Save over an array with a non-string succeeds, and after that the mount effect can never load the slot |
| Notes.EmptyNoteSaved | src/assets/components/MyEditor.tsx:71-86 | an empty editor is saved too, as the empty text, and shown as an empty entry |
| Notes.NoteList.constructor | src/assets/components/MyEditor.tsx:54-57 | the first render has an empty list and an editor with a single empty block |
| Notes.NoteList.Load | src/assets/components/MyEditor.tsx:59-69 | the list becomes the rendered stored texts when the slot can be loaded, and stays as it was otherwise |
| Notes.NoteList.Edit | src/assets/components/MyEditor.tsx:109-111 | the editor takes the new state |
| Notes.NoteList.Save | src/assets/components/MyEditor.tsx:71-86 | succeeds exactly when the slot can be spread and the write goes through; on success the slot gains the plain text, the list gains its translation and the editor is emptied; otherwise nothing changes; it keeps the list in step with the slot |
| Notes.SaveThenReload | src/assets/components/MyEditor.tsx:59-86 | over a loadable slot, the list after Save equals the list a fresh page loads from the new slot, with the translation of the typed text last |

## Left out

- The React and JSX rendering, Tailwind class presentation, `dangerouslySetInnerHTML`, and the page layout. The rendered list is modelled as strings of HTML.
- draft-js internals. An editor state is its list of blocks (at least one), and `getPlainText` joins them with line feeds. Selection, entity and inline-style data are not modelled.
- How draft-js combines a decorator's ranges. The model gives the ranges each strategy reports; at most one range is ever reported per block.
- The live heading's `text-3xl` class versus the saved `text-4xl`. A decoration records its treatment, not its class names.
- JSON text. The slot is modelled as the value `JSON.parse` returns (`Notes.Stored`), and array elements other than strings are one `Other` value. `JSON.stringify` then `JSON.parse` is taken as the identity on arrays of strings.
- Storage failures. A failing `localStorage.setItem` (quota, privacy mode) is the `writeOk` parameter. Other tabs writing the same slot are not modelled.
- `console.error` on a load or save failure. The model only says that nothing changes.
- The commented-out earlier version of the component after the export (MyEditor.tsx:150-305). It is inactive code.
- Decorator.Strategy: strings are sequences of Unicode code points, while JavaScript's `text.length` counts UTF-16 code units. For a block holding a character outside the Basic Multilingual Plane, the source's range end is larger than the model's `|text|`; for `"* 😀"` it is 4 and the model's is 3.
- Decorator.Decorate: its idempotence is not stated separately, because a decoration is a pure function of the block text.
- Translator.ScanPerLine: the per-line equality excludes a bare `**` or `***` line before a terminator. The scanner `Translator.Scan` itself covers that case, and `Consistency.BareAlertMarkerTakesNextLine` shows what happens there.
