# Korean text overlay: a verified model of the layout and editing core

The tool places translated Korean text over scanned pages. Each piece of
text is a *text region* (`TextRegion`): its text, a target box on the page,
and its style. The style covers font, size, colour, margin, wrap mode, line
spacing, weight, alignment, stroke and background.

The user drags, resizes, reorders, merges and restyles regions on an image
canvas. The canvas previews each region by fitting its text into the box.
The main window saves regions to CSV and loads them back. It also exports
the page in four ways: two PIL exports (screen size and double size), a
QPainter export and an RGBA overlay.

The model covers:

- **Line wrapping** (`BoxWrap`, `WordWrap`, `CharWrap`):
  - the mixed-script wrapper `wrap_text_for_box`. Hangul syllables and
    spaces are placed one at a time; runs of other characters are placed
    as whole words;
  - the paragraph/word wrapper `wrap_text_for_overlay_safe_word`;
  - the canvas's character-count `wrap_text`.

  Text width is an abstract measurer, `string -> Option<real>`. `None`
  means the measurement raised an error, and the wrappers then fall back
  to the estimate `len * size * 0.6`.
- **Font resolution** (`Fonts`): the candidate chain of
  `load_font_for_overlay`, and the weight-aware chain of
  `_load_pil_font_with_bold`. Both are choices over ordered candidate lists
  from an abstract font environment (which files exist, which open).
- **Box-fit layout** (`Layout`, `Export`):
  - the preview's `draw_korean_text_optimized`. It clamps the box, picks
    the font size, insets the text rectangle, wraps, compresses the line
    height, rescales once, centres the block vertically, aligns each line
    and drops lines that fall outside;
  - the export variants built from the same arithmetic.
- **Region-list editing** (`Geometry`, `Edits`, `Editor`):
  - the `Editor.Tool` (main window) and `Editor.Canvas` (image canvas)
    classes hold the mutable state: the region list, the selection and the
    drag/resize session;
  - their methods are proved against the functions of `Geometry` and
    `Edits`.
- **Serialisation** (`Csv`, `Numerals`, `ColorHex`):
  - the CSV row written by `save_csv` and read by `load_csv`;
  - Python's `str`/`int`/`float` text forms for the numbers in a row;
  - the BGR colour written to the colour button's style sheet as
    `#rrggbb` and parsed back.
- **The record** (`Region`): `TextRegion.__init__` with its defaults and
  derived fields.

Source paths below are relative to the repository root. `text_renderer.py`
is `text_overlay/text_overlay_tool/render/text_renderer.py`. The main file
`text_overlay/text_overlay_tool_vision.py` holds the canvas class
`ImageCanvas` and the main window `TextOverlayTool`. It has verbatim copies
of the wrappers (canvas 1143-1222, 717-779; main window 6184-6246) and of
the font chain (canvas 2379-2438, main window 6045-6104). The copies are
identical except where a row below says otherwise.

## Model

| member | source | states |
|---|---|---|
| Region.NewRegion | text_overlay/text_overlay_tool/models/text_region.py:19-65 | A missing bbox becomes (0,0,0,0). `boldLevel` is 1 exactly when bold, so weight and flag agree. A missing background is opaque white. A new region has no stroke (no colour, width 0). Twice the centre is (x1+x2, y1+y2). The region is unplaced, not hand-made and visible. Every other argument is stored unchanged. |
| Region.DefaultRegion | text_overlay/text_overlay_tool/models/text_region.py:19-21 | The keyword defaults: size 18, black, 나눔고딕, margin 2, word wrap, spacing 1.2, not bold, centred, white background. |
| Region.TruncDiv | text_overlay/text_overlay_tool_vision.py:979 | Python's `int()` of a quotient truncates toward zero. It equals the floor for a non-negative numerator and the negated floor of the negation otherwise. |
| Text.Strip | text_overlay/text_overlay_tool/render/text_renderer.py:44 | `strip()` is empty exactly when the text is blank. Otherwise it starts and ends with a non-space character. It is a contiguous slice of the input. |
| Text.SplitOn | text_overlay/text_overlay_tool/render/text_renderer.py:149 | `split('\n')` returns at least one part and no part contains the separator. Joining the parts with the separator gives back the text. |
| Text.Words | text_overlay/text_overlay_tool/render/text_renderer.py:159 | `split()` yields non-empty words without whitespace. It yields none exactly when the text is blank. |
| BoxWrap.IsKorean | text_overlay/text_overlay_tool/render/text_renderer.py:24-26 | A character is Korean exactly when it is in U+AC00–U+D7AF, U+1100–U+11FF or U+3130–U+318F. A Korean character is never a space or a newline. |
| BoxWrap.WordEnd | text_overlay/text_overlay_tool/render/text_renderer.py:70-74 | The inner loop stops at the first space or Korean character after a run of word characters. |
| BoxWrap.WordEndUnique | text_overlay/text_overlay_tool/render/text_renderer.py:70-74 | Any index that ends a maximal run of word characters is the one the loop finds. |
| BoxWrap.NextUnit | text_overlay/text_overlay_tool/render/text_renderer.py:62-75 | A word character starts a maximal word, placed as one unit. A Korean character or a space is a unit of one character. The unit is the exact slice read. For a space, the fallback piece is the previous word, as written. |
| BoxWrap.EstimatePlace | text_overlay/text_overlay_tool/render/text_renderer.py:93-104 | A unit that fits extends the line. On overflow, a non-empty line is flushed and the unit starts the next. An empty line emits the unit alone. With no fallback piece, the run aborts. |
| BoxWrap.PlaceUnit | text_overlay/text_overlay_tool/render/text_renderer.py:78-104 | Placing one unit takes the measured branch when the measurer answers and the estimate otherwise. |
| BoxWrap.ReadUnit | text_overlay/text_overlay_tool/render/text_renderer.py:57-76 | The loop that reads one unit yields exactly the unit `NextUnit` describes. |
| BoxWrap.WrapTextForBox | text_overlay/text_overlay_tool/render/text_renderer.py:29-115 | The wrapper's loop computes the as-written wrap: `[""]` for blank text and never an empty list. |
| BoxWrap.Finish | text_overlay/text_overlay_tool/render/text_renderer.py:107-115 | The final flush and the `[text]` fallbacks never give an empty list. |
| BoxWrap.WrapForBoxAsWritten | text_overlay/text_overlay_tool/render/text_renderer.py:29-115 | As written, the result is `[""]` for blank text and never empty. For other text it is either the text whole or lines with no newline, at least one per newline. The lines need not spell the text. |
| BoxWrap.StalePlaceKeeps | text_overlay/text_overlay_tool/render/text_renderer.py:78-104 | As written, placing a unit either aborts or keeps every emitted line and the current line free of newlines, dropping no emitted line. |
| BoxWrap.StaleRunKeepsLines | text_overlay/text_overlay_tool/render/text_renderer.py:53-106 | As written, the loop either aborts or ends with newline-free lines, at least one per newline read. |
| BoxWrap.WrapForBox | text_overlay/text_overlay_tool/render/text_renderer.py:29-115 | With the overflow fix: for non-blank text, the lines concatenate to the text minus its newlines. There are at least as many lines as newlines, and no line contains one. Blank text gives `[""]`. |
| BoxWrap.RunPreservesText | text_overlay/text_overlay_tool/render/text_renderer.py:53-106 | With the fix, every step keeps emitted lines plus the current line equal to the text read so far, minus newlines. Each newline starts a new line. |
| BoxWrap.PlaceKeepsText | text_overlay/text_overlay_tool/render/text_renderer.py:78-104 | With the fix, placing a unit never drops or repeats a character. |
| BoxWrap.UnitKeepsText | text_overlay/text_overlay_tool/render/text_renderer.py:57-104 | One unit read and placed keeps the text-so-far invariant. |
| BoxWrap.NonBlankKeepsSomething | text_overlay/text_overlay_tool/render/text_renderer.py:44-45 | Non-blank text has a non-newline character, so the wrap of it is not empty text. |
| BoxWrap.EstimateAgrees | text_overlay/text_overlay_tool/render/text_renderer.py:83-104 | A measurer that returns exactly `len * size * 0.6` makes the same decisions as the estimate the code falls back to. |
| BoxWrap.StaleTrace | text_overlay/text_overlay_tool/render/text_renderer.py:88-103 | As written, "ab cd" in a 12px box at size 10 overflows at the space. The space's fallback piece is the stale word "ab". |
| BoxWrap.StaleWordRepeats | text_overlay/text_overlay_tool/render/text_renderer.py:88-103 | As written, "ab cd" wraps to ["ab","ab","cd"]: the space is lost and "ab" is repeated. |
| BoxWrap.IntendedTrace | text_overlay/text_overlay_tool/render/text_renderer.py:83-104 | With the fix, the same run emits "ab" then the space. |
| BoxWrap.IntendedKeepsSpace | text_overlay/text_overlay_tool/render/text_renderer.py:83-104 | With the fix, "ab cd" wraps to ["ab"," ","cd"]. |
| BoxWrap.UnboundWordGivesUp | text_overlay/text_overlay_tool/render/text_renderer.py:88-115 | As written, a leading space that overflows reads the unbound `word`, and the handler returns `[" x"]`. With the fix, the result is [" ","x"]. |
| BoxWrap.GiveUpKeepsNewline | text_overlay/text_overlay_tool/render/text_renderer.py:88-115 | As written, " \nx" in a 5px box gives up at the leading space and returns `[" \nx"]`, one line holding the newline. |
| CharWrap.CharsPerLine | text_overlay/text_overlay_tool_vision.py:609-613 | Characters per line: 12 when the width is not positive, 2 when it is under 20, otherwise width // 8. Never below 2. |
| CharWrap.WrapText | text_overlay/text_overlay_tool_vision.py:601-634 | Never empty; `[""]` for "". No line is longer than the per-line count or holds a newline. The lines concatenate to the text minus newlines, one line at least per newline. |
| CharWrap.NewlineStep | text_overlay/text_overlay_tool_vision.py:619-621 | A newline closes the current line and keeps the loop invariant. |
| CharWrap.BreakStep | text_overlay/text_overlay_tool_vision.py:622-624 | A full line is closed and the character starts the next, keeping the invariant. |
| CharWrap.ExtendStep | text_overlay/text_overlay_tool_vision.py:625-626 | A character joins a line that is not full, keeping the invariant. |
| WordWrap.WrapWord | text_overlay/text_overlay_tool/render/text_renderer.py:118-192 | Never empty; `[""]` for blank text. Otherwise there is at least one line per paragraph and no line contains a newline. |
| WordWrap.ParagraphFacts | text_overlay/text_overlay_tool/render/text_renderer.py:152-185 | A blank paragraph yields exactly one "" line. A non-blank paragraph yields non-empty lines whose space-join is the space-join of its words, in order, each once. A line of two or more words fits the width. |
| WordWrap.GroupKeepsWords | text_overlay/text_overlay_tool/render/text_renderer.py:159-185 | The greedy packing neither drops, repeats nor reorders words: the lines joined by spaces are the words joined by spaces. |
| WordWrap.GroupWellFormed | text_overlay/text_overlay_tool/render/text_renderer.py:136-171 | Every packed line is non-empty and has no newline. A line with a space passed the width test, so a line of several words fits. |
| WordWrap.GroupAppends | text_overlay/text_overlay_tool/render/text_renderer.py:159-185 | Packing is independent of the lines already emitted before it. |
| WordWrap.AllLinesFacts | text_overlay/text_overlay_tool/render/text_renderer.py:149-187 | Paragraphs are processed in order, each giving at least one line, none with a newline. |
| WordWrap.PackWords | text_overlay/text_overlay_tool/render/text_renderer.py:159-185 | The word loop appends exactly the greedy packing of the paragraph's words. |
| WordWrap.PackParagraph | text_overlay/text_overlay_tool/render/text_renderer.py:152-187 | One paragraph's iteration appends exactly that paragraph's lines. |
| WordWrap.PackParagraphs | text_overlay/text_overlay_tool/render/text_renderer.py:149-187 | The paragraph loop yields the concatenation of the paragraphs' lines, in order. |
| WordWrap.WrapTextForOverlaySafeWord | text_overlay/text_overlay_tool/render/text_renderer.py:118-192 | The wrapper computes the word wrap whose properties are stated above. |
| Fonts.FirstLoadable | text_overlay/text_overlay_tool/render/text_renderer.py:233-261 | No font exactly when no candidate is loadable. Otherwise the font is the first loadable candidate in list order, opened at the size. |
| Fonts.Plain | text_overlay/text_overlay_tool/render/text_renderer.py:233-240 | Path candidates are checked and opened under the same path. |
| Fonts.Bundled | text_overlay/text_overlay_tool_vision.py:6068 | Bundled candidates are checked under their name and opened through the resource path. |
| Fonts.OverlayFont | text_overlay/text_overlay_tool/render/text_renderer.py:195-265 | The built-in font exactly when nothing in the chain loads. Otherwise the first loadable of: the custom registry entry, the family's list, the eight defaults. |
| Fonts.CustomFontFirst | text_overlay/text_overlay_tool/render/text_renderer.py:209-217 | A loadable custom font for the family always wins. |
| Fonts.TryPaths | text_overlay/text_overlay_tool/render/text_renderer.py:233-240 | The early-return loop over a candidate list returns the first loadable candidate. |
| Fonts.FirstLoadableAppend | text_overlay/text_overlay_tool/render/text_renderer.py:233-261 | Trying two lists in turn equals trying their concatenation. |
| Fonts.LoadFontForOverlay | text_overlay/text_overlay_tool/render/text_renderer.py:195-265 | The chained loops return exactly the chain's choice. |
| Fonts.WeightCandidates | text_overlay/text_overlay_tool_vision.py:5575-5633 | Level 2 tries the extra-bold files, then bold, then regular. Level 1 tries bold then regular. Level 0 tries regular only. |
| Fonts.WeightedFont | text_overlay/text_overlay_tool_vision.py:5567-5648 | The first loadable weight file is used. Failing that, the plain font chain at the same size. |
| Fonts.WeightOrder | text_overlay/text_overlay_tool_vision.py:5628-5633 | A loadable NanumGothic extra-bold is chosen at level 2. 맑은 고딕 at level 0 tries the Windows file, then the bundled one. |
| Fonts.LoadPilFontWithBold | text_overlay/text_overlay_tool_vision.py:5637-5648 | The loop with its fallback returns exactly the weighted choice. |
| Geometry.TopHit | text_overlay/text_overlay_tool_vision.py:2103-2115 | The reverse scan returns a hit index with no hit above it, or −1 when nothing hits. |
| Geometry.TextAt | text_overlay/text_overlay_tool_vision.py:2094-2115 | −1 without a current image. Otherwise −1 exactly when no positioned region of this image contains the point (edges included). If one does, the result is the highest such index: the top layer wins. |
| Geometry.HandlePriority | text_overlay/text_overlay_tool_vision.py:2139-2166 | The handle is the first of se, ne, sw, nw whose 20px corner zone contains the point, or none when no zone does. |
| Geometry.HandleInsideBox | text_overlay/text_overlay_tool_vision.py:2139-2166 | On a box at least 20px each way, a handle is only found inside the box. |
| Geometry.ResizeHandle | text_overlay/text_overlay_tool_vision.py:2117-2171 | A handle is only reported for a valid index of a region on the current image. |
| Geometry.Shifted | text_overlay/text_overlay_tool_vision.py:3233-3251 | An arrow-key move keeps width and height. With an image, it keeps x1 in [0, max(0, w − width)], and likewise for y. |
| Geometry.SafeClamp | text_overlay/text_overlay_tool_vision.py:2228-2236 | The safety clamp keeps the box on the image, at least one pixel each way. It leaves a box that is already inside unchanged. |
| Geometry.SafeClampIdempotent | text_overlay/text_overlay_tool_vision.py:2228-2236 | Clamping twice is clamping once. |
| Geometry.Bounds | text_overlay/text_overlay_tool_vision.py:2215-2217 | Bounds exist exactly when an image is loaded. The first drag caches the image size. |
| Geometry.Dragged | text_overlay/text_overlay_tool_vision.py:2199-2236 | Without an image, the box moves by the pointer delta. With one, the result is a non-degenerate box inside the image. |
| Geometry.DragFollows | text_overlay/text_overlay_tool_vision.py:2199-2236 | A move that stays inside the image is applied exactly. |
| Geometry.Resized | text_overlay/text_overlay_tool_vision.py:2308-2342 | Each handle moves only its own corner and keeps the opposite corner. The box never goes below 30px each way or past the image edge beyond what that minimum forces. |
| Geometry.ResizeResult | text_overlay/text_overlay_tool_vision.py:2296-2372 | Without an image, the resize uses a 1920x1080 default. With one, the result is a non-degenerate box inside the image. |
| Geometry.ResizeFollows | text_overlay/text_overlay_tool_vision.py:2308-2315 | A bottom-right resize within bounds is applied exactly. |
| Geometry.DropIndexRoundTrip | text_overlay/text_overlay_tool_vision.py:1486-1488 | The drag payload written for row n is read back as n. |
| Geometry.DropBox | text_overlay/text_overlay_tool_vision.py:1494-1509 | The drop box is 120x50 around the point. On an image large enough, it lies inside. |
| Edits.Removed | text_overlay/text_overlay_tool_vision.py:1939 | Removing index i shifts the later elements down by one. |
| Edits.MovedToFront | text_overlay/text_overlay_tool_vision.py:1933-1953 | The region becomes the last (topmost) one. The others keep their order. |
| Edits.MovedToBack | text_overlay/text_overlay_tool_vision.py:1955-1974 | The region becomes the first (bottom) one. The others keep their order. |
| Edits.ReorderPermutes | text_overlay/text_overlay_tool_vision.py:1933-1974 | Both reorders are permutations: nothing is lost or duplicated. |
| Edits.BackThenFront | text_overlay/text_overlay_tool_vision.py:1933-1974 | Sending to back and then bringing the new bottom to front equals bringing to front directly. |
| Edits.ReorderInPlace | text_overlay/text_overlay_tool_vision.py:1933-1974 | The top layer brought to front, or the bottom one sent to back, stays put. |
| Edits.Selection | text_overlay/text_overlay_tool_vision.py:4430-4434 | The distinct selected rows are exactly the rows of the selected items. |
| Edits.Lowest | text_overlay/text_overlay_tool_vision.py:4447-4450 | The first row after sorting is selected and no greater than any selected row. |
| Edits.MergedLines | text_overlay/text_overlay_tool_vision.py:4451-4457 | The merged lines are non-empty stripped texts. There are some exactly when some selected row in range is not blank. |
| Edits.Kept | text_overlay/text_overlay_tool_vision.py:4464-4469 | What deletion keeps is exactly the elements at undeleted indices. |
| Edits.Doomed | text_overlay/text_overlay_tool_vision.py:4464 | The rows deleted are the selected rows above the lowest. |
| Edits.KeptPrefix | text_overlay/text_overlay_tool_vision.py:4464-4469 | Deleting only rows above n leaves rows 0..n where they were. |
| Edits.KeptCount | text_overlay/text_overlay_tool_vision.py:4464-4469 | The list after deletion has one entry per undeleted index. |
| Edits.MergeShape | text_overlay/text_overlay_tool_vision.py:4447-4481 | After a merge, the rows before the lowest selected row are unchanged. The lowest selected row keeps its index and holds the '\n'-join of the merged lines. |
| Edits.MergeKeepsUnselected | text_overlay/text_overlay_tool_vision.py:4464-4469 | Every unselected region survives a merge. |
| Edits.StrokeColorChosen | text_overlay/text_overlay_tool_vision.py:1848-1858 | Choosing a colour stores it and lifts a zero width to 1; nothing else changes. The stroke stays consistent: width 0 exactly when there is no colour. |
| Edits.StrokeWidthChanged | text_overlay/text_overlay_tool_vision.py:1874-1908 | The width is stored. Width 0 clears the colour. A positive width keeps an existing colour or picks black. The stroke stays consistent. |
| Edits.StrokeApplied | text_overlay/text_overlay_tool_vision.py:2060-2069 | Accepting the dialog stores the spin box's width and normalises the colour in the same way. |
| Edits.StrokeAppliedAgrees | text_overlay/text_overlay_tool_vision.py:1874-1908 | The final normalisation agrees with the live width handler for every non-negative width. |
| Edits.ChosenColorSurvives | text_overlay/text_overlay_tool_vision.py:1848-1908 | The width signal that follows a colour choice keeps the chosen colour. |
| Editor.Tool.constructor | text_overlay/text_overlay_tool_vision.py:2455-2492 | The main window starts with no regions and no image, size 18 and 나눔고딕. Its fresh canvas points back to it and has nothing selected. |
| Editor.Tool.OnTextDropped | text_overlay/text_overlay_tool_vision.py:4600-4615 | A dropped region gets the box, becomes positioned and is tagged with the current image. An index out of range changes nothing. |
| Editor.Tool.MoveSelectedTextBox | text_overlay/text_overlay_tool_vision.py:3210-3257 | An arrow key shifts only the selected region's box, by `Shifted`. Without a selected region on this image, nothing changes. |
| Editor.Tool.ClearTextSelection | text_overlay/text_overlay_tool_vision.py:3259-3268 | The selection and the gesture flags are cleared. The image and the drag caches are kept. |
| Editor.Tool.ResetTextPosition | text_overlay/text_overlay_tool_vision.py:4369-4425 | A reset happens exactly for a positioned row in range. It unplaces that region only and clears the canvas selection. Otherwise nothing changes. |
| Editor.Tool.MergeSelectedLines | text_overlay/text_overlay_tool_vision.py:4427-4515 | A merge happens exactly when two or more distinct rows are selected and some selected text is not blank. The list becomes `Merged` and the canvas selects the merged row. Otherwise nothing changes. |
| Editor.Tool.LoadCsv | text_overlay/text_overlay_tool_vision.py:3587-3772 | The region list becomes the regions of the readable rows, in file order. |
| Editor.Tool.SaveCsv | text_overlay/text_overlay_tool_vision.py:3486-3579 | Nothing is written for an empty list. Otherwise the file is the header followed by one row per region, in order. |
| Editor.CollectLines | text_overlay/text_overlay_tool_vision.py:4451-4457 | The scan over the sorted rows collects exactly the merged lines. |
| Editor.DeleteRows | text_overlay/text_overlay_tool_vision.py:4464-4469 | Deleting in descending order leaves exactly the undeleted elements, in order. |
| Editor.Canvas.constructor | text_overlay/text_overlay_tool_vision.py:373-415 | A new canvas has no image, no selection, no gesture and no caches. |
| Editor.Canvas.LoadImage | text_overlay/text_overlay_tool_vision.py:417-431 | A new image resets the cached size and file name. |
| Editor.Canvas.MousePress | text_overlay/text_overlay_tool_vision.py:1290-1330 | A press on a region selects the top region hit. On a corner handle it starts a resize, otherwise a move. A press on nothing changes nothing. |
| Editor.Canvas.MouseRelease | text_overlay/text_overlay_tool_vision.py:1381-1401 | Releasing over a selection ends any gesture and clears the drag and resize origins. |
| Editor.Canvas.MoveTextBox | text_overlay/text_overlay_tool_vision.py:2173-2249 | One drag event advances the move session as `Step` does, so `StepKeeps` applies. |
| Editor.Canvas.ResizeTextBox | text_overlay/text_overlay_tool_vision.py:2251-2377 | One resize event advances the resize session as `Step` does. |
| Editor.Canvas.Drop | text_overlay/text_overlay_tool_vision.py:1481-1517 | A drop is accepted exactly for a valid payload with a position. The row in range gets the drop box and is positioned on the current image. Otherwise the list is unchanged. |
| Editor.Canvas.MoveToFront | text_overlay/text_overlay_tool_vision.py:1933-1953 | A valid index moves to the top layer, as in `MovedToFront`. Otherwise nothing changes. |
| Editor.Canvas.MoveToBack | text_overlay/text_overlay_tool_vision.py:1955-1974 | A valid index moves to the bottom layer, as in `MovedToBack`. Otherwise nothing changes. |
| Editor.Canvas.ChooseStrokeColor | text_overlay/text_overlay_tool_vision.py:1848-1858 | A chosen colour updates only that region, keeping stroke consistency. A cancelled dialog changes nothing. |
| Editor.Canvas.OnStrokeWidthChanged | text_overlay/text_overlay_tool_vision.py:1874-1908 | Only that region changes; its stroke is consistent afterwards. |
| Editor.Canvas.ApplyStroke | text_overlay/text_overlay_tool_vision.py:2063-2069 | Only that region changes; its stroke is consistent afterwards. |
| Editor.StepKeeps | text_overlay/text_overlay_tool_vision.py:2173-2377 | A drag or resize event changes only the selected region's box, and only for a region on the current image. Once recorded, the origin and file name stay fixed. With an image, the new box is non-degenerate and inside it. |
| Editor.GestureBox | text_overlay/text_overlay_tool_vision.py:2199-2372 | With an image, the box a gesture computes is non-degenerate and inside it. |
| Editor.DragFollowsPointer | text_overlay/text_overlay_tool_vision.py:2193-2226 | Two drag events that stay on the image move the box by the total pointer delta. The first records the origin; the second is measured from it. |
| Editor.StepFromStart | text_overlay/text_overlay_tool_vision.py:2199-2226 | Every later drag event is measured from the recorded origin and starting box, not the previous event. |
| Editor.MergedRowExists | text_overlay/text_overlay_tool_vision.py:4459-4461 | When there is text to merge, the lowest selected row is a valid index, so the assignment at 4461 cannot fail. |
| Layout.ClampBox | text_overlay/text_overlay_tool_vision.py:959-966 | After clamping, the box is at least 2px each way and starts on the image. A box already inside is unchanged, so the degenerate-box return never fires. |
| Layout.PreviewFontSize | text_overlay/text_overlay_tool_vision.py:979 | The font size is at least 8, at most max(8, the region's size) and at most max(8, ⌊0.6 · box height⌋). It equals the region's size when that is in range. |
| Layout.TextRect | text_overlay/text_overlay_tool_vision.py:985-999 | The text rectangle is the box inset by the margin when that leaves room. Otherwise it is a minimum rectangle at the box's corner. Never empty. |
| Layout.WrapWidth | text_overlay/text_overlay_tool_vision.py:1017-1023 | The wrap width is at least 10 and never below the text width. A negative margin widens it. |
| Layout.Wrap | text_overlay/text_overlay_tool_vision.py:1025-1029 | Either mode gives a non-empty list. The lines hold no newline, except when the char-mode box wrapper gives up and returns the text whole. Otherwise char mode gives at least one line per newline. |
| Layout.WrapFixed | text_overlay/text_overlay_tool_vision.py:1025-1029 | With the whitespace fix in the box wrapper, neither mode yields a newline in a line. Word mode is the same as `Layout.Wrap`. |
| Layout.Arrange | text_overlay/text_overlay_tool_vision.py:1031-1063 | The block fits the available height, or the line height has bottomed out at the font size. The font size stays in [8, the starting size]. The total is lines × line height. |
| Layout.LineHeightFits | text_overlay/text_overlay_tool_vision.py:1040-1046 | Compressing to max(size, available // n) fits, or the height is the font size. |
| Layout.ScaleShrinks | text_overlay/text_overlay_tool_vision.py:1047-1052 | Rescaling by available/total strictly shrinks the font. |
| Layout.SqueezeKeepsSize | text_overlay/text_overlay_tool_vision.py:1040-1046 | When compression suffices, font and lines are kept and the block fits. |
| Layout.RescaleShrinks | text_overlay/text_overlay_tool_vision.py:1047-1063 | When compression does not suffice, the font shrinks by at least 1 (floor 8) and is reloaded. The text is re-wrapped once at the new size, and the line height recomputed from the new line count. |
| Layout.StartY | text_overlay/text_overlay_tool_vision.py:1066 | The block is centred vertically: the space below exceeds the space above by 0 or 1. |
| Layout.AlignX | text_overlay/text_overlay_tool_vision.py:1080-1087 | Left alignment starts at the left edge and right alignment ends at the right edge. Centred lines have equal margins to within the integer division. |
| Layout.PlaceLine | text_overlay/text_overlay_tool_vision.py:1073-1123 | A line is drawn exactly when it is not blank and its aligned position lies within the text rectangle widened by the tolerance. It is then drawn at that position, at its own row. |
| Layout.PlaceAll | text_overlay/text_overlay_tool_vision.py:1072-1123 | One placement per line, each at its own row. |
| Layout.Reload | text_overlay/text_overlay_tool_vision.py:1052 | A refit reloads the overlay font at the new size, bold-enlarged for bold regions. |
| Layout.Fitted | text_overlay/text_overlay_tool_vision.py:985-1066 | The frame keeps the box and inset. The font size is in [8, the start] and the lines are non-empty. The block fits, or the line height is the font size. The block is centred vertically. |
| Layout.PreviewFrame | text_overlay/text_overlay_tool_vision.py:959-1066 | The preview's frame uses the clamped box and a non-empty text rectangle. Its font is between 8 and max(8, the region's size). |
| Layout.Handle | text_overlay/text_overlay_tool_vision.py:1125-1130 | Handles are drawn exactly for the selected region when handles are shown; the handle size is at most 15. |
| Layout.PreviewLayout | text_overlay/text_overlay_tool_vision.py:952-1140 | The preview has a font of at least 8, some lines and one placement per line. |
| Layout.PreviewDraws | text_overlay/text_overlay_tool_vision.py:1072-1123 | Line i is drawn exactly when it is not blank and lies within 20px of the text rectangle. It is then drawn at the aligned x and at y = start + i · line height. |
| Layout.TruncateLine | text_overlay/text_overlay_tool_vision.py:1104-1112 | A line whose top plus size passes the limit is stripped to nothing, since the loop's condition never changes. Otherwise the line is drawn unchanged. |
| Layout.DrawLines | text_overlay/text_overlay_tool_vision.py:1072-1123 | The drawing loop yields exactly the placements. |
| Layout.DrawKoreanTextOptimized | text_overlay/text_overlay_tool_vision.py:952-1140 | The method computes the preview layout. |
| Layout.NegativeMarginWidens | text_overlay/text_overlay_tool_vision.py:985-1023 | A margin of −10 grows a 100x50 box's text rectangle to 120x70 and its wrap width to 140. |
| Export.ScaleBox | text_overlay/text_overlay_tool_vision.py:5411-5415 | Scaling multiplies the box's width and height by the scale. |
| Export.EffectiveSize | text_overlay/text_overlay_tool_vision.py:5274-5279 | The regular weight keeps the size. Bold enlarges any size of at least 10. |
| Export.ScaledFrame | text_overlay/text_overlay_tool_vision.py:5230-5306 | The export frame uses the clamped box and a non-empty text rectangle, with a font between 8 and max(8, the size cap). |
| Export.ExportFrame | text_overlay/text_overlay_tool_vision.py:5411-5437 | The double-size export scales box, image, size and margin. Its frame is the clamp of the scaled box. |
| Export.ExportRegion | text_overlay/text_overlay_tool_vision.py:5329 | Exports draw no handles and place every line, with the tolerance scaled (5539). |
| Export.ExportAll | text_overlay/text_overlay_tool_vision.py:5215-5229 | At most one export per region. |
| Export.ExportAllStep | text_overlay/text_overlay_tool_vision.py:5222-5229 | Each region adds its export exactly when it is on the current image, positioned and (where required) visible. |
| Export.ExportOne | text_overlay/text_overlay_tool_vision.py:5230-5355 | The loop body computes that region's export. |
| Export.ExportStep | text_overlay/text_overlay_tool_vision.py:5222-5355 | One iteration extends the exports by that region's, if it is exported. |
| Export.ExportLoop | text_overlay/text_overlay_tool_vision.py:5222-5355 | The export loop yields the exports of the exported regions, in list order. |
| Export.DrawLinesWithin | text_overlay/text_overlay_tool_vision.py:5336-5355 | The export's drawing loop yields exactly the placements at its tolerance. |
| Export.SaveWithPilScreen | text_overlay/text_overlay_tool_vision.py:5203-5378 | The screen export draws the visible, positioned regions of the current image at scale 1. |
| Export.SaveWithPilHiRes | text_overlay/text_overlay_tool_vision.py:5379-5566 | The double-size export draws the positioned regions of the current image at scale 2, hidden ones included. |
| Export.ScreenWithinHiRes | text_overlay/text_overlay_tool_vision.py:5225-5229 | The screen export never draws more regions than the double-size one. |
| Export.HiddenOnlyInHiRes | text_overlay/text_overlay_tool_vision.py:5224-5225 | A hidden region is skipped by the screen export and drawn by the double-size one. |
| Export.HiResDoublesBox | text_overlay/text_overlay_tool_vision.py:5411-5425 | A box inside the image is exported as is at scale 1 and exactly doubled at scale 2. |
| Export.ScreenMatchesPreview | text_overlay/text_overlay_tool_vision.py:5230-5306 | For a regular-weight region whose weight files are absent, the screen export's frame equals the preview's frame. |
| Export.BoldLinesTaller | text_overlay/text_overlay_tool_vision.py:5296-5303 | The screen export takes the line height from the bold-enlarged size: 22 instead of 20 at size 20, spacing 1.0. |
| Export.TempFont | text_overlay/text_overlay_tool_vision.py:5755 | The QPainter export's measuring font is unavailable exactly when the bundled NanumGothic exists but does not open. |
| Export.QtWrapAsWritten | text_overlay/text_overlay_tool_vision.py:5751-5762 | As written, char mode calls a method the main window lacks, so there are no wrapped lines. In word mode there are lines exactly when the temporary font opens. They are non-empty and hold no newline. |
| Export.QtWrap | text_overlay/text_overlay_tool_vision.py:5751-5762 | With the fix (the canvas's box wrapper, whitespace fix included), the wrap is missing exactly when the measuring font fails; otherwise it is non-empty. |
| Export.CharModeUnwrapped | text_overlay/text_overlay_tool_vision.py:5755-5762 | As written, char mode falls back to one unwrapped line. With the fix, the lines have no newline and keep every character. |
| Export.QtPlace | text_overlay/text_overlay_tool_vision.py:5813-5850 | A line is drawn exactly when it is not blank and its baseline is within the text rectangle; it is drawn at that baseline. |
| Export.QtSettle | text_overlay/text_overlay_tool_vision.py:5813-5850 | The plan keeps lines, height and size, with one placement per line. |
| Export.QtSize | text_overlay/text_overlay_tool_vision.py:5697-5702 | The QPainter font size is at least 8. For regular weight, it is max(8, min(int(0.6 · height), the region's size)). |
| Export.QtFit | text_overlay/text_overlay_tool_vision.py:5764-5809 | With no compression step (5771): a block that fits keeps its size, lines and spaced height. One that overflows shrinks the font by at least 1 (floor 8). In char mode the re-wrap raises, so the lines are kept as given. |
| Export.QPainterPlan | text_overlay/text_overlay_tool_vision.py:5650-5856 | Every drawn baseline is within the text rectangle. The font is at least 8 and there are lines. In char mode the whole text is one line. |
| Export.ClampLoose | text_overlay/text_overlay_tool_vision.py:5877-5881 | The overlay clamp keeps at least 1px each way on the image. A box inside is unchanged. |
| Export.OverlayLinesAsWritten | text_overlay/text_overlay_tool_vision.py:5929-5939 | As written, the lines are never empty. Char mode yields the whole text as one line; word-mode lines hold no newline. |
| Export.OverlayLines | text_overlay/text_overlay_tool_vision.py:5929-5939 | With the fix, the lines are never empty and word mode is unchanged. |
| Export.OverlayCharModeUnwrapped | text_overlay/text_overlay_tool_vision.py:5929-5939 | As written, char mode keeps the newlines in one line. With the fix, no line contains one. |
| Export.OverlayRegion | text_overlay/text_overlay_tool_vision.py:5857-5951 | Only positioned regions with a box are drawn, with a font of at least 8, a non-empty rectangle and the spaced line height. With a margin of 0 or less, such a region is always drawn. In char mode its lines are the whole text as one line. |
| ColorHex.HexDigit | text_overlay/text_overlay_tool_vision.py:4300 | A digit's hex character reads back as that digit. |
| ColorHex.Hex02 | text_overlay/text_overlay_tool_vision.py:4300 | `{:02x}` of a component 0..255 is two hex digits, high then low. |
| ColorHex.Hex02RoundTrip | text_overlay/text_overlay_tool_vision.py:4288-4300 | `int(..., 16)` of a formatted component gives it back. |
| ColorHex.FindText | text_overlay/text_overlay_tool_vision.py:4284 | `find` returns the first occurrence at or after the start, or the length when there is none. |
| ColorHex.CurrentColor | text_overlay/text_overlay_tool_vision.py:4279-4292 | A style without the colour property reads as black. |
| ColorHex.InitialStyleIsBlack | text_overlay/text_overlay_tool_vision.py:4282-4292 | A style sheet that never mentions `background-color:`, as the initial one, reads as black. |
| ColorHex.NamedColorIsBlack | text_overlay/text_overlay_tool_vision.py:4285 | A colour value not starting with '#' reads as black. |
| ColorHex.ColorRoundTrip | text_overlay/text_overlay_tool_vision.py:4279-4313 | The colour written to the button's style reads back as the same BGR colour. |
| ColorHex.ReadSixDigits | text_overlay/text_overlay_tool_vision.py:4288-4290 | Six formatted hex digits parse back to the three components. |
| Csv.Header | text_overlay/text_overlay_tool_vision.py:3516-3531 | The header has 19 columns. |
| Csv.HeaderDistinct | text_overlay/text_overlay_tool_vision.py:3516-3531 | The column names are distinct. |
| Csv.SaveRow | text_overlay/text_overlay_tool_vision.py:3534-3579 | Each row has one cell per header column. |
| Csv.SavedRows | text_overlay/text_overlay_tool_vision.py:3534-3579 | Row i is the row saved for region i. |
| Csv.SavedRowsStep | text_overlay/text_overlay_tool_vision.py:3534-3579 | Saving one more region appends exactly its row to the rows saved so far. |
| Csv.Columns | text_overlay/text_overlay_tool_vision.py:3631-3634 | The column map holds exactly the header's names, each at its last position. |
| Csv.HeaderColumns | text_overlay/text_overlay_tool_vision.py:3631-3634 | Under the saved header, each name maps to its own column. |
| Csv.HeaderIsExtended | text_overlay/text_overlay_tool_vision.py:3637-3647 | The saved header is read in the extended format, with the text in column 1. |
| Csv.Get | text_overlay/text_overlay_tool_vision.py:3677-3681 | A cell is present exactly when its column exists and the row is long enough. |
| Csv.TargetCells | text_overlay/text_overlay_tool_vision.py:3688-3697 | A target box is only accepted with positive width and height. |
| Csv.Base | text_overlay/text_overlay_tool_vision.py:3653-3673 | A loaded region starts hand-made, unplaced and visible, with the defaults. Weight and stroke are consistent. |
| Csv.LoadRow | text_overlay/text_overlay_tool_vision.py:3640-3768 | A legacy row loads exactly when it has two cells, and an extended row exactly when it reaches the text column. A legacy row keeps only the text. |
| Csv.LoadAll | text_overlay/text_overlay_tool_vision.py:3630-3772 | At most one region per row. |
| Csv.Collect | text_overlay/text_overlay_tool_vision.py:3630-3772 | Rows that do not load are skipped. |
| Csv.CollectAll | text_overlay/text_overlay_tool_vision.py:3630-3772 | When every row loads, there is one region per row, in order. |
| Csv.RowRoundTrip | text_overlay/text_overlay_tool_vision.py:3534-3768 | Saving a region and loading its row gives back text, image name (empty reads as none), target box (when of positive size), font, size, colour, margin, wrap mode, weight, alignment and the hand-made flag. Line spacing comes back as printed. The region is positioned exactly when it has a box. |
| Csv.NamesRoundTrip | text_overlay/text_overlay_tool_vision.py:3729-3766 | Wrap mode, alignment and the hand-made flag read back as written. |
| Csv.IntCellRoundTrip | text_overlay/text_overlay_tool_vision.py:3700-3726 | An integer cell reads back as the integer written. |
| Csv.ColorRoundTrip | text_overlay/text_overlay_tool_vision.py:3712-3718 | The three colour cells read back as the colour. |
| Csv.TargetRoundTrip | text_overlay/text_overlay_tool_vision.py:3688-3697 | Saved coordinates read back as the box when it has positive size. Empty cells read as no box. |
| Csv.SpacingRoundTrip | text_overlay/text_overlay_tool_vision.py:3734-3739 | The spacing cell reads back as the printed decimal, with the same value. |
| Csv.BoldRoundTrip | text_overlay/text_overlay_tool_vision.py:3742-3751 | A bold level 0..2 reads back as written. |
| Csv.LoadedConsistent | text_overlay/text_overlay_tool_vision.py:3693-3761 | A loaded region is positioned exactly when it has a box, keeps weight and stroke consistent, and is visible. |
| Csv.LoadSaved | text_overlay/text_overlay_tool_vision.py:3486-3772 | Loading a saved file gives one region per saved region, in order, each the reload of its row. |
| Numerals.NatToString | text_overlay/text_overlay_tool_vision.py:3568-3571 | `str` of a natural is digits with no leading zero. |
| Numerals.NatRoundTrip | text_overlay/text_overlay_tool_vision.py:3700-3705 | The digits of a natural read back as it. |
| Numerals.ParseIntRoundTrip | text_overlay/text_overlay_tool_vision.py:3700-3705 | `int(str(n)) == n` for every integer. |
| Numerals.ParseInt | text_overlay/text_overlay_tool_vision.py:3700-3705 | `int()` never parses blank text. |
| Numerals.ParseDecimal | text_overlay/text_overlay_tool_vision.py:3734-3739 | `float()` never parses blank text. |
| Numerals.Normal | text_overlay/text_overlay_tool_vision.py:3574 | The shortest form of a spacing has no trailing fractional zero and no more places than the original. |
| Numerals.NormalKeepsValue | text_overlay/text_overlay_tool_vision.py:3574 | Dropping trailing fractional zeros keeps the value. |
| Numerals.DecimalToString | text_overlay/text_overlay_tool_vision.py:3574 | The printed spacing is non-empty and unpadded. |
| Numerals.ShortestExamples | text_overlay/text_overlay_tool_vision.py:3574 | A spacing of 1.20 is written "1.2", and 2 is written "2.0". |
| Numerals.TrailingZeroPrintsAlike | text_overlay/text_overlay_tool_vision.py:3574 | A trailing fractional zero does not change the printed text. |
| Numerals.PrintStable | text_overlay/text_overlay_tool_vision.py:3574-3739 | Writing back a spacing read from a written cell gives the same text. |
| Numerals.PrintedKeepsValue | text_overlay/text_overlay_tool_vision.py:3574 | The printed form has the same value as the spacing. |
| Numerals.ParseDecimalRoundTrip | text_overlay/text_overlay_tool_vision.py:3574-3739 | `float(str(x))` gives back the shortest digits of `x`, with one fractional zero for a whole number. |
| Numerals.DigitsValueAppend | text_overlay/text_overlay_tool_vision.py:3700-3705 | The value of concatenated digits is the first part shifted plus the second. |
| Numerals.HighLow | text_overlay/text_overlay_tool_vision.py:3574 | A scaled decimal splits into whole and fraction parts. |

## Left out

- Rasterisation and measurement. PIL `draw.text`, `textlength`, strokes,
  alpha compositing, resizing, OpenCV and QPainter drawing are outside the
  model. Text width is an abstract measurer and drawing a line is a
  placement record.
- Font files. `os.path.exists`, `ImageFont.truetype` and the PyInstaller
  resource path are an abstract font environment.
- Floating point. `line_spacing` is a decimal and the 0.6, 1.1 and 1.15
  multipliers are exact tenths and hundredths. Python computes them in
  IEEE doubles, so `int(x * 1.15)` can be one lower than the model's
  (100 * 1.15 gives 114.99999...).
- Layout.Arrange: its results are exact rationals truncated, not IEEE
  products.
- Numerals.ParseDecimal: reads only the plain decimal forms. Exponents,
  `inf`, `nan` and underscores give the default 1.2, as an unparsable
  cell does. `str` of very large or small floats (exponent form) is not
  modelled.
- Numerals.DecimalToString: a negative zero prints "0.0", not "-0.0",
  because a decimal has no signed zero. Digits beyond a double's precision
  are not rounded.
- Layout.Wrap: does not promise newline-free lines in char mode. The box
  wrapper as written returns the text whole when it reads the unbound
  `word`. Layout.WrapFixed keeps that promise for the fixed wrapper.
- Numerals.ParseInt: digit underscores and non-ASCII digits are not
  accepted.
- The `csv` module's quoting and encoding, and file dialogs. Rows are
  sequences of cells.
- Dialogs, message boxes, confirmations, status messages, table refreshes
  and preview refreshes. Reset and LoadCsv are modelled after the user
  answers "Yes".
- MouseMove dispatch and its QTime throttle (1347-1380): time-based.
- The right-click handle toggle (1296-1308): UI-only display state.
- `draw_korean_text` (780-950): the canvas never calls it; every draw goes
  through `draw_korean_text_optimized`.
- The `TextRenderer` static wrappers (text_renderer.py 267-289): pure
  delegation to the functions modelled.
- Geometry.ResizeHandle: the `except` path of `get_resize_handle`
  (returning None on an exception) is the same as "no handle".
- Aliasing. Regions are values. `list.index(region)` in the layer reorder
  is modelled as the index the menu was opened on, so duplicate equal
  regions are not distinguished.
- The merge's row de-duplication and sort are a set and an ascending scan.
- `jp_image_path` is kept as its base name, which is all the export and
  the drop handlers compare.
- OCR (`CloudVisionOCR` and the worker thread), logging, INI settings,
  zoom and the widget-to-image mapping.
- `main.py` and `ui/image_canvas.py` (an entry point and an import stub)
  are not part of this model.

## Findings

| source | as written | input that shows it | evidently intended | confidence | as-written member | corrected member |
|---|---|---|---|---|---|---|
| text_overlay/text_overlay_tool/render/text_renderer.py:83-104 | When the overflowing unit is a space, lines 88, 91, 101 and 103 place the stale variable `word` (the previous word) instead of the space. If no word was read yet, `word` is unbound and the handler returns `[text]`. | "ab cd" at size 10 in a 12px box, with measurement failing, gives ["ab","ab","cd"]. " x" in a 5px box gives [" x"]. | Place the unit itself, so every character appears once: ["ab"," ","cd"] and [" ","x"]. | not executed | BoxWrap.StaleWordRepeats | BoxWrap.WrapForBox |
| text_overlay/text_overlay_tool_vision.py:5751-5762 | `save_with_qpainter` in char mode calls `self.wrap_text_for_box`, which the main window does not define. The handler falls back to `[region.text]`. | Any char-mode region whose text is "가\n나" is drawn as one line holding the newline. | Wrap with the canvas's `wrap_text_for_box`, as the word mode does with its wrapper. The corrected member also applies the first row's whitespace fix. | not executed | Export.CharModeUnwrapped | Export.QtWrap |
| text_overlay/text_overlay_tool_vision.py:5929-5939 | `create_overlay_image` in char mode makes the same call and the same fallback. Nothing in the file calls `create_overlay_image` (only its definition at 5857 and a docstring at 6046 name it), so the defect is latent. | A char-mode region with text "가\n나". | Wrap with the canvas's wrapper, with the first row's whitespace fix. | not executed | Export.OverlayCharModeUnwrapped | Export.OverlayLines |
