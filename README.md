# md2ppt core, modelled in Dafny

md2ppt turns markdown into PowerPoint slides. Mistune tokenizes the markdown into a
token tree. A segmenter cuts that tree into slides and placeholders. A writer then fills
a python-pptx template. Along the way there are line-level markdown rewriters, a
frontmatter splitter, a neighbour-distance computation for shape geometry, and small
mapping tables such as colours, heading sizes, layout indices and numbering schemes.

This project models those deterministic transformations and proves properties about
them. Each source file has one module:

| module | source file | form |
|---|---|---|
| `Json2Slide`, `Json2SlideRuns`, `Json2SlideLists` | json2slide.py | the segmenter state as a `Deck` value with spec transitions, the class `SlideBuilder` whose methods update it in place, and recursive functions for runs and lists |
| `JsonToSlides` | json_to_slides.py | the older segmenter as a spec fold plus the method `ConvertMistune` whose loop is proved against it; recursive text, span and list helpers |
| `Expand` | utils/expand.py | pure geometry functions plus the method `Expand`, whose loop over the four directions updates the deltas map |
| `MarkdownToPresentation` | markdown_to_presentation.py | both index loops as methods, proved against fold functions |
| `MarkdownParser` | markdown_parser.py | `parse_markdown_line` as a pure classifier; the class `Parser` holds the module-level `unidentified_lines` list |
| `Json2Pptx` | json2pptx.py | the layout-enum loop, layout lookup with fallback, title defaulting, placeholder index rule, and token and run dispatch tables |
| `Util` | utils/util.py | `dict_shape` and the `orderify` numbering table |
| `SlidesToPptx` | slides_to_pptx.py | `hex_to_rgb`, size and layout tables, run building, integer line estimates, the list paragraphs and the table cell plan |
| `MarkdownToJson`, `Md2Json`, `Frontmatter` | markdown_to_json.py, md2json.py | rule-marker classification, both frontmatter splitters with their regular expressions modelled concretely, and result assembly |
| `Json2List` | test/json2list.py | `parse_tokens` |

The shared modules are:
- `Wrappers`: Option and Result.
- `Strings`: Python's `strip`, `splitlines`, `join` and `str(int)`.
- `Json`: JSON values and Python truthiness.
- `Mistune`: the token tree, as one `Node` datatype with a `Kind`, an optional `raw`, a children list and optional attributes.

A key that Python reads without checking becomes an `Option` in the model. The exception raised when the key is missing (KeyError, IndexError, TypeError, ValueError) becomes a `Failure` result. No model puts a precondition on such inputs.

Notable behaviours of the code as written, all modelled:
- json2slide.py does not call `finalize_slide` after the last token, and it drops no empty slides. The initial slide is kept even when nothing lands on it, so `# A`, `x`, `# B` gives three slides (`Json2Slide.InitialSlideKept`). The last slide keeps layout `""` (`Json2Slide.LastSlideUnfinalized`).
- Image URLs are not percent-decoded.
- A paragraph is dispatched on its first child, not its sole child, and an empty text is not skipped.
- `table` tokens reach the ignore branch of the dispatch.
- List records carry no ordered flag.
- With more than two non-empty placeholders, `determine_layout` returns `""`.
- Malformed tokens raise exceptions that end the whole conversion.
- The list line estimate in slides_to_pptx.py is the item count. An empty list therefore gets 0 lines, not at least 1 (`SlidesToPptx.ItemCountIsParagraphs`).

## Model

| member | source | states |
|---|---|---|
| Json2Slide.CountNonEmpty | json2slide.py:41-44 | the number of non-empty placeholders is at most the number of placeholders |
| Json2Slide.CountNonEmptyAll | json2slide.py:41-44 | when every placeholder is non-empty, the count is the number of placeholders |
| Json2Slide.CountNonEmptyNone | json2slide.py:41-44 | when every placeholder is empty, the count is 0 |
| Json2Slide.LayoutOutcomes | json2slide.py:37-64 | the layout is the directive or one of section_header, title_and_content, two_content, content_with_caption and ""; it fails only without a directive, with exactly two non-empty placeholders, when placeholder 0 or 1 is empty |
| Json2Slide.LayoutWithoutGaps | json2slide.py:41-64 | with no empty placeholder the layout never fails: 0, 1, 2 and more placeholders give section_header, title_and_content, two_content iff both first entries are shared (else content_with_caption), and "" |
| Json2Slide.EmptySlideIsSectionHeader | json2slide.py:41-50 | a slide whose placeholders are all empty, with no directive, is a section_header |
| Json2Slide.LayoutIdempotent | json2slide.py:37-39 | a layout once written back is returned as-is: finalizing is a fixed point |
| Json2Slide.DetermineLayout | json2slide.py:37-64 | the counting loop computes the layout exactly as specified, including the IndexError case |
| Json2Slide.SetCurrent | json2slide.py:24-27 | replacing the current slide keeps the cursors and the other slides |
| Json2Slide.Finalize | json2slide.py:29-35 | the current slide gets its layout, one fresh slide (empty title, layout "", one empty placeholder, no notes) is appended, the slide cursor moves to it, the placeholder cursor is 0, prev_token is unchanged; fails exactly when determine_layout raises |
| Json2Slide.WithPlaceholder | json2slide.py:85-88 | one empty placeholder is appended to the current slide and becomes current; nothing else changes |
| Json2Slide.WithToken | json2slide.py:68-83 | the entry is appended to the current placeholder, after opening a new one unless the current one is empty or both the previous and this token are shared; prev_token becomes this token's consume |
| Json2Slide.SetTitle | json2slide.py:190-196 | only the current slide's title changes |
| Json2Slide.Step | json2slide.py:185-256 | one token of the dispatch loop keeps the cursors well-formed, or fails with the exception of a missing key or index |
| Json2Slide.Steps | json2slide.py:185-256 | the loop keeps the cursors well-formed; the first exception ends it |
| Json2Slide.StepsFailureSticks | json2slide.py:185-256 | once a token raises, the rest of the tokens change nothing |
| Json2Slide.InitialInv | json2slide.py:13-27 | the initial state (one fresh slide, both cursors 0, no previous token) satisfies the segmenter invariant |
| Json2Slide.SetCurrentInv | json2slide.py:190-196 | changing the title, layout or notes of the current slide keeps the invariant |
| Json2Slide.FinalizeInv | json2slide.py:29-35 | finalize_slide keeps the invariant, and the finished slide carries the layout determine_layout gives it |
| Json2Slide.WithPlaceholderInv | json2slide.py:85-88 | add_placeholder keeps the invariant |
| Json2Slide.WithTokenPlacement | json2slide.py:68-83 | the entry lands at the end of the current placeholder; the placeholder is new exactly when the old one was non-empty and not both tokens were shared; no other slide or placeholder changes |
| Json2Slide.WithTokenInv | json2slide.py:68-83 | add_token keeps the invariant: monopoly entries stay alone, and prev_token's consume is that of the current placeholder's last entry |
| Json2Slide.StepInv | json2slide.py:185-256 | every dispatch step keeps the invariant |
| Json2Slide.StepsInv | json2slide.py:185-256 | every state the loop reaches satisfies the invariant |
| Json2Slide.SegmentInvariant | json2slide.py:12-258 | in the output every monopoly (image) entry is alone in its placeholder, and every slide but the last carries the layout determine_layout gives it |
| Json2Slide.MonopolyOpensAndCloses | json2slide.py:68-83 | a monopoly token lands alone in a placeholder, and whatever token comes next opens a new one |
| Json2Slide.SharedTokensStayTogether | json2slide.py:74-83 | a shared token after a shared entry joins the same placeholder |
| Json2Slide.StepSlideCount | json2slide.py:190-209 | a step adds one slide for a level-1/2 heading or a thematic break and none otherwise |
| Json2Slide.SlideCount | json2slide.py:190-209 | the slide count is one plus the number of level-1/2 headings and thematic breaks; no slide is dropped |
| Json2Slide.ThematicBreakCopiesTitle | json2slide.py:207-209 | a thematic break starts a slide with the previous slide's title |
| Json2Slide.LastSlideUnfinalized | json2slide.py:258 | without a layout directive among the tokens, the last slide ends with layout "" |
| Json2Slide.ParagraphDispatch | json2slide.py:217-234 | a first child of type text adds a shared paragraph of the runs of all children; an image adds a monopoly image entry with its url, and alt only when it is non-empty; any other first child adds nothing |
| Json2Slide.InitialSlideKept | json2slide.py:190-196 | `# A`, `x`, `# B` gives three slides: the first two finalized, the last not |
| Json2Slide.SlideBuilder.constructor | json2slide.py:13-27 | the builder starts in the initial state |
| Json2Slide.SlideBuilder.FinalizeSlide | json2slide.py:29-35 | the fields are updated exactly as Finalize says, or the crash is reported |
| Json2Slide.SlideBuilder.AddPlaceholder | json2slide.py:85-88 | the fields are updated exactly as WithPlaceholder says |
| Json2Slide.SlideBuilder.AddToken | json2slide.py:68-83 | the fields are updated exactly as WithToken says |
| Json2Slide.SlideBuilder.Feed | json2slide.py:185-256 | one dispatch-loop pass updates the fields exactly as Step says, or reports its crash |
| Json2Slide.ProcessJson | json2slide.py:12-258 | the imperative loop over the tokens computes Segment, failing with KeyError when frontmatter or tokens is missing |
| Json2SlideRuns.StyleFor | json2slide.py:91-102 | strong, emphasis and codespan set bold, italic and monospace; a link with a url sets the hyperlink; inherited flags are kept |
| Json2SlideRuns.ProcessTokensAppend | json2slide.py:106-114 | siblings do not influence each other: the runs of a concatenated forest are the concatenated runs |
| Json2SlideRuns.RunTextsArePreorderRaws | json2slide.py:104-114 | one run per raw-bearing token, carrying its text, in pre-order |
| Json2SlideRuns.StylesInherited | json2slide.py:91-114 | every run below a style carries what that style sets |
| Json2SlideRuns.StylesOnlyFromAncestors | json2slide.py:91-114 | without a strong (emphasis, codespan) token and without the flag inherited, no run is bold (italic, monospace) |
| Json2SlideRuns.StrongSubtreeBold | json2slide.py:94-95 | every run inside a strong token is bold |
| Json2SlideLists.IterTokenShift | json2slide.py:117-171 | depth is relative: starting k levels deeper shifts every record by exactly k |
| Json2SlideLists.IterTokensShift | json2slide.py:117-171 | the same for a list of tokens |
| Json2SlideLists.ItemExtrasShift | json2slide.py:117-171 | the same for an item's nested tokens |
| Json2SlideLists.IterTokenDepthBounds | json2slide.py:117-171 | every record of a token lies between its depth and its depth plus its list nesting; a list token puts its items one deeper |
| Json2SlideLists.IterTokensDepthBounds | json2slide.py:117-171 | the same bound for a list of tokens |
| Json2SlideLists.ItemExtrasDepthBounds | json2slide.py:117-171 | the same bound for an item's nested tokens |
| Json2SlideLists.ProcessListDepths | json2slide.py:116-183 | the own record of a top-level item is in the result at depth 0; every record of a list nested directly in such an item is in the result at depth at least 1; no depth exceeds the list nesting |
| Json2SlideLists.ItemRecordFirst | json2slide.py:133-161 | an item's own record comes first, before its nested lists' records; an item without block_text runs has no record of its own |
| JsonToSlides.SpansSpellExtractedText | json_to_slides.py:273-332 | on flat inline children, the spans spell out exactly the extracted text |
| JsonToSlides.ListItems | json_to_slides.py:335-376 | one entry per item at the given level; nested entries one level deeper; subitems present only when there are some |
| JsonToSlides.ListEntryOf | json_to_slides.py:340-374 | an entry is at its level; its text is empty without block_text children, the one text with one, and the texts joined by single spaces with more; its subitems are non-empty and one level deeper |
| JsonToSlides.BlockTexts | json_to_slides.py:353-357 | a text is collected exactly when some block_text child has it, and there are no more texts than children |
| JsonToSlides.BlockTextsAppend | json_to_slides.py:353-357 | the texts keep the children's order: a block_text child gives its text, any other child nothing, and runs of children concatenate |
| JsonToSlides.SubItems | json_to_slides.py:355-370 | the entries of nested lists are all at the given level |
| JsonToSlides.ProcessContentDefined | json_to_slides.py:201-270 | process_content_node gives content exactly for the handled types (not level-2 headings or unknown types); extract_text returns raw when present |
| JsonToSlides.ConvStep | json_to_slides.py:59-162 | one iteration keeps the converter state well-formed |
| JsonToSlides.ConvSteps | json_to_slides.py:59-162 | the loop keeps the converter state well-formed |
| JsonToSlides.ConvertMistune | json_to_slides.py:8-171 | the imperative loop computes Convert |
| JsonToSlides.ConvStepIds | json_to_slides.py:62-134 | one iteration keeps the slide ids in order |
| JsonToSlides.ConvStepsIds | json_to_slides.py:62-134 | the loop keeps the slide ids in order |
| JsonToSlides.SlideIdsConsecutive | json_to_slides.py:62-134 | the slides come out numbered slide-1, slide-2, ... in order |
| JsonToSlides.ConvStepItems | json_to_slides.py:59-162 | one iteration adds one held item for a content node and none otherwise |
| JsonToSlides.ItemsConserved | json_to_slides.py:8-171 | the slides hold exactly one item per content node, in content or in a column: the `***` conversion moves items, it does not copy them |
| JsonToSlides.HeldSteps | json_to_slides.py:59-162 | the items held after the loop are the content nodes |
| JsonToSlides.BreakTitles | json_to_slides.py:62-105 | an h2 without text is titled `Slide {counter}` after the counter moved past the pushed slide; a dash rule, or a rule without marker_type, starts a slide with the current title |
| JsonToSlides.AsteriskMakesColumns | json_to_slides.py:108-159 | an asterisk rule on a one-column slide moves its content into the first of two columns and empties content; later content goes to the second column |
| JsonToSlides.NoOpTokens | json_to_slides.py:85-138 | underscore and unknown rules and blank lines change nothing |
| JsonToSlides.ContentBeforeHeading | json_to_slides.py:141-150 | content before any heading opens a slide titled "Untitled" with id slide-1 |
| JsonToSlides.FrontmatterOverrides | json_to_slides.py:28-54 | frontmatter title, author and theme override the defaults one by one |
| Expand.RelatedMutual | utils/expand.py:14-33 | bar is on foo's side d exactly when foo is on bar's opposite side |
| Expand.TouchingCounts | utils/expand.py:17-18 | touching edges count as neighbours |
| Expand.CanvasContains | utils/expand.py:35-55 | the canvas contains every shape, the subject included |
| Expand.CanvasIsTight | utils/expand.py:35-46 | each canvas edge is the same edge of some shape: it is the bounding box |
| Expand.GreaterMarginSymmetric | utils/expand.py:48-53 | greater_margin is symmetric and at least each margin's EMU, a missing margin counting as 0 |
| Expand.Related | utils/expand.py:76 | the related shapes are exactly the neighbours on that side, and no more than the shapes |
| Expand.RelatedAppend | utils/expand.py:76 | the filter keeps the shapes' order: it distributes over concatenation, and one shape is kept exactly when it is related |
| Expand.Clearances | utils/expand.py:78 | one clearance (gap minus greater margin) per related shape |
| Expand.Position | utils/expand.py:65 | Python's pop index: a negative index counts from the end |
| Expand.Expand | utils/expand.py:55-84 | the loop over the four directions computes ExpandSpec, failing on no shapes or an index out of range |
| Expand.NeighboursAreTheOthers | utils/expand.py:56-66 | the neighbours are one shape fewer than the shapes, and together with the subject they make up the same multiset as the shapes; the list is the shapes with position k removed |
| Expand.NoNeighbourReachesCanvas | utils/expand.py:80-82 | without a neighbour the delta is the distance from the subject's edge to the canvas's same edge, never negative |
| Expand.DeltaAtMostClearance | utils/expand.py:76-79 | a neighbour bounds its direction's delta by its clearance, and with non-negative margins by its plain gap |
| Expand.DeltaAttained | utils/expand.py:76-79 | with neighbours the delta is the clearance of one of them and may be negative |
| Expand.FourKeys | utils/expand.py:68-84 | the result has exactly the keys left, right, above and below |
| MarkdownToPresentation.Nearest | markdown_to_presentation.py:21-25 | the nearest `## ` heading in i..1 or none; index 0 is never looked at |
| MarkdownToPresentation.FindHeading | markdown_to_presentation.py:21-25 | the inner loop finds Nearest |
| MarkdownToPresentation.InsertHeadings | markdown_to_presentation.py:16-29 | the first loop computes FirstPass |
| MarkdownToPresentation.FirstPassPrefix | markdown_to_presentation.py:16-29 | the first pass only appends |
| MarkdownToPresentation.FirstPassKeepsLines | markdown_to_presentation.py:16-29 | every input line is kept, in order |
| MarkdownToPresentation.FirstPassLines | markdown_to_presentation.py:16-29 | every output line is an input line or an inserted blank line |
| MarkdownToPresentation.FirstPassIdentity | markdown_to_presentation.py:16-29 | without `---` lines the first pass is the identity |
| MarkdownToPresentation.LastStop | markdown_to_presentation.py:38-40 | where the backward scan stops |
| MarkdownToPresentation.LastStopSpec | markdown_to_presentation.py:38-40 | the scan stops at a `## ` heading or `---` rule, or at index 0, and passes only lines that are neither |
| MarkdownToPresentation.NextStop | markdown_to_presentation.py:56-61 | where the forward count stops |
| MarkdownToPresentation.NextStopSpec | markdown_to_presentation.py:56-61 | the forward count stops at the first level-1/2 heading or `---` at or after j |
| MarkdownToPresentation.KeptSpec | markdown_to_presentation.py:42-43 | the collected lines leave out exactly the `***` rules |
| MarkdownToPresentation.CollectBefore | markdown_to_presentation.py:37-45 | the backward scan collects its lines and pops, or raises IndexError popping an empty list |
| MarkdownToPresentation.CountTail | markdown_to_presentation.py:55-61 | the forward count computes the new tail |
| MarkdownToPresentation.EmitFence | markdown_to_presentation.py:46-54 | after the scan come the opening fence, the collected lines in order, and the fence between the columns |
| MarkdownToPresentation.SeparateColumns | markdown_to_presentation.py:31-68 | the second loop computes SecondPass or its crash |
| MarkdownToPresentation.SecondPassFails | markdown_to_presentation.py:31-68 | once the second pass fails, later lines change nothing |
| MarkdownToPresentation.ConvertMarkdownToPresentation | markdown_to_presentation.py:5-71 | the function computes Convert |
| MarkdownToPresentation.SecondPassIdentity | markdown_to_presentation.py:32-68 | without `***` lines the second pass copies its input, since tail starts at -1 and never reaches 0 |
| MarkdownToPresentation.UnchangedWithoutRules | markdown_to_presentation.py:16-71 | input with neither `---` nor `***` lines comes back unchanged |
| MarkdownToPresentation.OnlyFirstPassWithoutColumns | markdown_to_presentation.py:31-71 | without `***` lines the output is the first-pass lines joined |
| MarkdownToPresentation.ColumnStepNoRule | markdown_to_presentation.py:35-68 | one iteration emits no `***` line |
| MarkdownToPresentation.NoRuleEmitted | markdown_to_presentation.py:35-68 | no `***` line is ever emitted |
| MarkdownToPresentation.BeforeLines | markdown_to_presentation.py:37-45 | the collected lines run from after the nearest `## ` or `---` (or index 0) to the rule, without `***` rules, and one earlier line is popped per scanned line other than the rule |
| MarkdownToPresentation.RuleFence | markdown_to_presentation.py:46-54 | a `***` emits "\n", the columns fence, a column fence, the collected lines, ":::" and a second column fence, in that order |
| MarkdownToPresentation.PopFromEmptyCrash | markdown_to_presentation.py:44-45 | one line followed by eleven `***` lines raises IndexError: more lines are popped than were emitted |
| MarkdownParser.LastBracketParen | markdown_parser.py:23-28 | the last `](` in range, as the greedy `.*` finds it, or none |
| MarkdownParser.LastBracketParenFinds | markdown_parser.py:23-28 | the last `](` in range is the one found |
| MarkdownParser.HeadingLevel | markdown_parser.py:7-18 | there are at most six heading levels |
| MarkdownParser.HashPrefix | markdown_parser.py:7-18 | a line starts with k `#` and a space exactly when its leading `#` run has length k and a space follows |
| MarkdownParser.HeadingLevelIsHashRun | markdown_parser.py:7-18 | the heading level is the leading `#` run when it has 1 to 6 characters followed by a space, and 0 otherwise |
| MarkdownParser.ClassifyRest | markdown_parser.py:19-37 | the tests after the headings keep raw, and a paragraph's content is the line |
| MarkdownParser.Classify | markdown_parser.py:5-37 | raw is the right-stripped line, a paragraph's content is raw, and heading levels are 1 to 6 |
| MarkdownParser.NoHeading | markdown_parser.py:7-18 | a line not starting with `#` is no heading |
| MarkdownParser.NoTarget | markdown_parser.py:23-28 | the image and link patterns fail on a line starting otherwise |
| MarkdownParser.NoDigits | markdown_parser.py:21-22 | the ordered pattern fails on a line starting with neither space nor digit |
| MarkdownParser.Unstripped | markdown_parser.py:6 | a line without white space at its ends is its own strip |
| MarkdownParser.Rules | markdown_parser.py:29-32 | three or more dashes, or three or more asterisks, are the two horizontal rule kinds |
| MarkdownParser.BulletItems | markdown_parser.py:19-20 | spaces, a dash, a space and text parse as a bullet whose content is the text |
| MarkdownParser.ImageUrls | markdown_parser.py:23-25 | `![alt](url)` is an image whose content is the url |
| MarkdownParser.ImageTarget | markdown_parser.py:23-25 | the image pattern's group is the url |
| MarkdownParser.LinkUrls | markdown_parser.py:26-28 | `[text](url)` is a link whose content is the url |
| MarkdownParser.BlankLines | markdown_parser.py:33-34 | a line is blank exactly when it is empty after right-stripping, and then its content is empty |
| MarkdownParser.ParagraphMatchesNothing | markdown_parser.py:35-37 | a line is a paragraph exactly when it is non-empty after rstrip and no earlier test matched it; its content is that line |
| MarkdownParser.Records | markdown_parser.py:39-55 | one record per line |
| MarkdownParser.SnocParagraphs | markdown_parser.py:36 | a paragraph record adds its line to the unidentified lines |
| MarkdownParser.SkippingIsParity | markdown_parser.py:42-50 | the skip flag is the parity of the `---` lines seen so far |
| MarkdownParser.KeptLinesSpec | markdown_parser.py:44-53 | kept lines are input lines other than `---`, in order; without `---` every line is kept |
| MarkdownParser.LineKept | markdown_parser.py:44-53 | a line other than `---` is kept exactly when an even number of `---` lines precede it |
| MarkdownParser.OneRecordPerLine | markdown_parser.py:39-55 | without `---` lines there is one record per line, in order |
| MarkdownParser.Parser.constructor | markdown_parser.py:3 | the unidentified lines start empty |
| MarkdownParser.Parser.ParseMarkdownLine | markdown_parser.py:5-37 | returns Classify(line) and appends the stripped line to the unidentified lines exactly for a paragraph |
| MarkdownParser.Parser.ParseMarkdownText | markdown_parser.py:39-55 | returns ParseMarkdown and appends the paragraphs' lines to the unidentified lines |
| Json2Pptx.Lookup | json2pptx.py:72-75 | a found member has that name; a missing one has no entry of that name |
| Json2Pptx.GetSlideLayoutEnum | json2pptx.py:26-39 | the loop computes MembersOf over all layouts |
| Json2Pptx.PutLookup | json2pptx.py:37 | after an assignment the key reads the new value, every other key is unchanged, and the size grows only for a new key |
| Json2Pptx.PutEntries | json2pptx.py:37 | an assignment adds or replaces only that entry |
| Json2Pptx.PutDistinct | json2pptx.py:37 | member names stay distinct |
| Json2Pptx.PutAppends | json2pptx.py:37 | a new key is appended at the end |
| Json2Pptx.MembersOfSpec | json2pptx.py:26-39 | every member's value is the index of one of the layouts, and no name occurs twice |
| Json2Pptx.MembersOfDistinctBases | json2pptx.py:26-39 | while no two layouts sanitize to the same name, layout i is member i under its sanitized name |
| Json2Pptx.SanitizeShape | json2pptx.py:29-31 | a sanitized name has only word characters and no lower-case ASCII letter, does not start with a digit, and is one longer exactly when an `_` was prefixed |
| Json2Pptx.BaseNameNonEmpty | json2pptx.py:29-33 | a missing or empty name becomes `LAYOUT_{idx}`, so the name is never empty |
| Json2Pptx.CollidingSanitized | json2pptx.py:29-31 | "Title 2" gives TITLE_2 and "Title" gives TITLE |
| Json2Pptx.CollisionLosesLayout | json2pptx.py:35-37 | as written, layouts "Title 2", "Title", "Title" give TITLE_2 = 2 and TITLE = 1: layout 0 has no member |
| Json2Pptx.UniqueName | json2pptx.py:35-37 | the renaming step repeated until the name is free gives a free name |
| Json2Pptx.UniqueMembersOfSpec | json2pptx.py:26-39 | with the repeated check, layout i is always member i, under a distinct name that looks up to i |
| Json2Pptx.DistinctLookup | json2pptx.py:72 | with distinct names, each member's name looks up to its value |
| Json2Pptx.DefaultLayoutKey | json2pptx.py:70 | the default key is TITLE_AND_CONTENT |
| Json2Pptx.FindDefaultLayout | json2pptx.py:76-80 | the fallback loop finds TITLE_AND_CONTENT's index, or none |
| Json2Pptx.ChooseLayout | json2pptx.py:69-82 | the method computes LayoutIndex |
| Json2Pptx.LayoutIndexCases | json2pptx.py:69-82 | a layout naming a member gets that member; no layout means TITLE_AND_CONTENT; any other name falls back to it; a non-string layout or a missing fallback crashes |
| Json2Pptx.LayoutIndexInRange | json2pptx.py:26-82 | the chosen index is always one of the template's layouts |
| Json2Pptx.UntitledGetsNoRuns | json2pptx.py:87-92 | as written, a slide without a title gets an empty title: the default's runs are not where they are looked up |
| Json2Pptx.IntendedTitleRunsSpec | json2pptx.py:87-92 | corrected: a slide without a title gets the untitled run, and slides with a title are treated as before |
| Json2Pptx.TitleRunsOfObject | json2pptx.py:87-92 | a `{"runs": [...]}` title yields its runs exactly when every run is a dict, and crashes on `run.get` otherwise; an empty title writes nothing |
| Json2Pptx.TitleRunsNotAList | json2pptx.py:132-134 | runs that are an empty string or an empty dict, and only those among non-lists, leave the title empty without an error; a non-empty string or dict crashes on `run.get`; a number, boolean or null is not iterable |
| Json2Pptx.PlaceholderLoop | json2pptx.py:94-101 | the loop computes PlannedWrites |
| Json2Pptx.PlannedWritesSpec | json2pptx.py:94-101 | placeholder list k (from 0) goes to shape k + 1, and exactly the lists with such a shape are written |
| Json2Pptx.TokenActionCases | json2pptx.py:103-115 | only paragraph and image tokens do anything |
| Json2Pptx.FormatByPresence | json2pptx.py:127-145 | bold, italic, monospace and hyperlink are set by the key's presence, whatever its value |
| Util.Geometry | utils/util.py:109-116 | the geometry dict has exactly the seven geometry keys |
| Util.DictShapeGeometry | utils/util.py:101-118 | without placeholder keys, right = left + width and bottom = top + height with the other geometry kept |
| Util.DictShapeOverride | utils/util.py:109-118 | keys from the placeholder win over every geometry key, right and bottom included; the others are kept |
| Util.DictShapeCrash | utils/util.py:105-117 | a name that parses to anything but an object crashes the unpacking |
| Util.AutoNumTypeLevels | utils/util.py:54-62 | levels 0 to 4 get five different schemes, and any other level gets arabicPeriod |
| SlidesToPptx.HexDigitValue | slides_to_pptx.py:40 | a hex digit has a value below 16 |
| SlidesToPptx.HexValue | slides_to_pptx.py:40 | the value of n hex digits is below 16^n |
| SlidesToPptx.LStripChar | slides_to_pptx.py:38 | lstrip('#') removes the leading `#` run |
| SlidesToPptx.HexPair | slides_to_pptx.py:40 | two hex digits parse to a value in 0..255 |
| SlidesToPptx.HexToRgbRoundTrip | slides_to_pptx.py:27-40 | writing a colour as `#RRGGBB` and parsing it back gives the colour |
| SlidesToPptx.HashesIgnored | slides_to_pptx.py:38 | leading `#` characters are ignored |
| SlidesToPptx.TrailingIgnored | slides_to_pptx.py:40 | characters after the sixth are ignored |
| SlidesToPptx.SixHexDigits | slides_to_pptx.py:38-90 | six hex digits give three components in 0..255, and the run gets that colour |
| SlidesToPptx.ShortColorFails | slides_to_pptx.py:40-90 | four or fewer characters after the `#`s leave a slice empty: ValueError, and the run keeps its colour |
| SlidesToPptx.HeadingSizeTable | slides_to_pptx.py:158-179 | level 1 gives 32, 3 gives 24, 4 gives 20, 5 gives 18, 6 gives 16, any other level 28, and no level counts as level 1 |
| SlidesToPptx.SlideLayoutIndexCases | slides_to_pptx.py:529-539 | title_only gives 5, two_content gives 3, anything else (a missing layout included) gives 1 |
| SlidesToPptx.RunsFailureSticks | slides_to_pptx.py:62-93 | once a span raises, the later spans change nothing |
| SlidesToPptx.ApplyTextStyle | slides_to_pptx.py:43-93 | the loop over the spans computes Runs |
| SlidesToPptx.RunsKeepText | slides_to_pptx.py:62-72 | one run per span with text, every run has text, and together they hold all the spans' text |
| SlidesToPptx.RunOfStyles | slides_to_pptx.py:63-93 | bold and underline are set by truthy values, and the run has the span's text |
| SlidesToPptx.RunsSucceed | slides_to_pptx.py:62-93 | the runs crash exactly when a span with text has a colour that is not a string |
| SlidesToPptx.LineEstimateSpec | slides_to_pptx.py:128 | the estimate is ⌊chars/perLine⌋ + 1: at least 1, and the number of lines of that width the text needs, plus one when it fills its last line exactly |
| SlidesToPptx.TextLengthIsConcat | slides_to_pptx.py:128 | the character count is the length of the joined span texts |
| SlidesToPptx.QuoteAtLeastParagraph | slides_to_pptx.py:128 | a blockquote is never estimated shorter than a paragraph of the same spans; both count the text of the runs they write |
| SlidesToPptx.CodeLinesSpec | slides_to_pptx.py:282-310 | code is estimated at its newline count plus one; a language label adds its own |
| SlidesToPptx.AddList | slides_to_pptx.py:190-255 | the nested loops compute ListParas |
| SlidesToPptx.SubParasLength | slides_to_pptx.py:239-248 | one paragraph per subitem |
| SlidesToPptx.ItemCountIsParagraphs | slides_to_pptx.py:220-252 | the estimate counts exactly the paragraphs the list writes, and at least one per item |
| SlidesToPptx.AddTable | slides_to_pptx.py:421-474 | as written: no headers and no rows add nothing, rows without headers raise TypeError because the first row itself is the column count, and otherwise the nested loops write the header cells and then each row's cells, the table that the corrected PlanTable gives |
| SlidesToPptx.HeaderCellsSpec | slides_to_pptx.py:458-463 | header cells are in row 0, fit the table and hold their entry; each header below the column count is written |
| SlidesToPptx.RowCellsSpec | slides_to_pptx.py:467-471 | a row's cells are in its table row, fit the table and hold their entry; each entry below the column count is written |
| SlidesToPptx.BodyCellsSpec | slides_to_pptx.py:467-471 | the same for all rows |
| SlidesToPptx.TableCellsSpec | slides_to_pptx.py:436-474 | corrected: every cell written lies inside the table and holds the entry at its place, and every entry below the column count is written |
| SlidesToPptx.TableAsWrittenAgrees | slides_to_pptx.py:436-474 | with headers, or without rows, the code as written agrees with the corrected one that takes the first row's length as the column count |
| SlidesToPptx.TableWithoutHeadersCrashes | slides_to_pptx.py:439-456 | as written, rows without headers always crash, even a single empty row, which should leave the slide as it is |
| Frontmatter.LazyGroup | markdown_to_json.py:104-105 | the lazy group `(.*?)` ends where the closing line can match |
| Frontmatter.LazyGroupShortest | markdown_to_json.py:104-105 | the group is as short as it can be, and no end fits when none is found |
| Frontmatter.TryOpenings | markdown_to_json.py:104-105 | a match found lies within the text: group start, group end, then the end of the match |
| Frontmatter.TryOpeningsFound | markdown_to_json.py:104-105 | what is found is the lazy group that starts just after a newline of the opening white space |
| Frontmatter.OpeningStart | markdown_to_json.py:104 | only white space precedes the opening `---` |
| Frontmatter.CloseAtShape | markdown_to_json.py:104 | the closing line is a newline, white space (lenient only), `---`, white space and a newline |
| Frontmatter.MatchShape | markdown_to_json.py:104-105 | a match is an opening line, the group and a closing line, and nothing more |
| Frontmatter.StrictNeedsDashesFirst | md2json.py:15-16 | the strict pattern only matches text starting with `---` |
| Frontmatter.LeadingSpaceExample | markdown_to_json.py:104 | leading white space is skipped by the lenient pattern and not by the strict one |
| Frontmatter.EmptyGroupExample | md2json.py:15-16 | in `---\n\n---\n` the group is empty: the engine backs off to the first newline |
| MarkdownToJson.MarkerType | markdown_to_json.py:81-88 | the marker type is one of dash, asterisk, underscore and unknown |
| MarkdownToJson.StripKeeps | markdown_to_json.py:78 | a non-space character is in strip(s) exactly when it is in s |
| MarkdownToJson.MarkerTypeSpec | markdown_to_json.py:78-88 | a `-` anywhere gives dash; otherwise `*` gives asterisk; otherwise `_` gives underscore; otherwise unknown, each an if-and-only-if |
| MarkdownToJson.RuleToken | markdown_to_json.py:90 | the token has exactly the keys type and marker_type, and type is thematic_break |
| MarkdownToJson.ExtractFrontmatterCases | markdown_to_json.py:93-121 | without a match, or when YAML fails, the content is kept whole with `{}`; otherwise the loaded value and the content after the match |
| MarkdownToJson.ParseMarkdownShape | markdown_to_json.py:124-159 | the result always holds content, and holds frontmatter exactly when it is truthy |
| Md2Json.ExtractFrontmatterCases | md2json.py:10-26 | without a match the text is kept; with one the block goes even when YAML fails, and a falsy document gives `{}` |
| Md2Json.FrontmatterOnlyAtStart | md2json.py:15-16 | without `---` at the very start, nothing is extracted |
| Md2Json.OutputShape | md2json.py:57-66 | the output has exactly the keys frontmatter and tokens, the tokens being those of the remaining text |
| Md2Json.RFind | md2json.py:70 | the last index of the character, or -1 |
| Md2Json.SplitExtRoot | md2json.py:70 | the root is a prefix of the path |
| Md2Json.ExportNameSpec | md2json.py:68-73 | the extension of a file name is replaced by `.json`, whatever dots its directories or the rest of its name hold, when its last component has a character other than a dot; without a file the name is output.json |
| Md2Json.ExportNameWithoutExtension | md2json.py:68-71 | a name whose last path component has no dot keeps its whole name before `.json` |
| Md2Json.ExportNameOfDotFile | md2json.py:68-71 | a dot file keeps its whole name: its leading dot is not an extension |
| Json2List.ParseTokens | test/json2list.py:3-12 | the recursive accumulator loop computes the concatenated Lines |
| Json2List.OneLinePerToken | test/json2list.py:3-12 | one line per token of the tree, at every depth; an empty list gives "" |
| Json2List.FirstLines | test/json2list.py:5-11 | a line is two spaces per level, `- `, the type and `: content` when the content is not empty; the children follow right after |
| Json2List.ContentSpec | test/json2list.py:7 | content is raw when non-empty, else attrs.url, else empty |
| Strings.RStrip | markdown_parser.py:6 | rstrip removes exactly the trailing white space |
| Strings.LStrip | markdown_parser.py:20 | lstrip removes exactly the leading white space |
| Strings.SplitLinesKeepEndsConcat | markdown_to_presentation.py:7 | joining the lines kept with their endings gives back the text |

## Left out

- The python-pptx object graph is not modelled. This covers text frames, paragraphs and fonts; `unbullet`, `titlify` and `set_highlight`; `clear_slides`; the `add_content_element` dispatch; image insertion and aspect ratios; `create_slide` and `create_presentation`. The model stops at the data handed to python-pptx.
- Geometry in inches is not modelled: heights, column placement and EMU conversion of fractional margins. `Expand` takes margins in whole inches, so `int(val * 914400)` is an exact multiplication.
- Mistune tokenization, its plugins, YAML loading and JSON parsing are left out. They are function parameters: YAML loading returns a value or an error; `dict_shape` takes the already-parsed placeholder name.
- Python regular expressions are not modelled in general. Only the frontmatter patterns and the line patterns of markdown_parser.py are written out concretely.
- File and CLI handling, printing and warnings are left out, as are pygments highlighting and the path rewriting scripts.
- `upper()`, `\W`, `\d` and `int(x, 16)` are modelled on ASCII. A non-ASCII character counts as a word character and is left unchanged by upper-casing. Python's Unicode tables for these are not modelled. White space is the exception: `strip`, `lstrip`, `rstrip` and `\s` use Python's full `str.isspace` table (`Strings.IsSpace`), non-ASCII spaces included.
- JSON and YAML numbers are integers only (`Json.JInt`). A float such as a frontmatter document `0.0`, or a fractional geometry override in a placeholder name, cannot be represented; no contract depends on floats.
- Json2Pptx.GetSlideLayoutEnum: it builds the name list; Python's Enum also refuses some names (for example `_sunder_` names or `mro`), which is not modelled.
- Json2Pptx.FormatRun: how the font and hyperlink are applied is not modelled, only which keys trigger them.
- SlidesToPptx.RunOf: style values other than booleans, strings and null are treated by Python truthiness only; the colour is the only style whose type can crash.
- JsonToSlides.ConvertMistune: a non-dict frontmatter and a dict input without `content` are not modelled; the input datatype gives either a token list or a content list with optional frontmatter.
- Json2Slide.Step: a `block_code` token without `info` raises KeyError. The model reports this as a crash and does not model a default language.
- Json2List.OneLinePerToken: it counts entries. When a raw or url holds a newline, one entry spans several text lines.
- MarkdownToPresentation.PopFromEmptyCrash: the crash is modelled as written. No repaired behaviour is proposed, because the intended output for such input is unclear.

## Findings

| source | as written | input that shows it | evidently intended | confidence | as-written member | corrected member |
|---|---|---|---|---|---|---|
| json2pptx.py:35-37 | a name already in the enum becomes `{name}_{idx}` without checking that name again, so it can replace an existing member | layouts named "Title 2", "Title", "Title": the third becomes TITLE_2 and replaces layout 0's member | every layout keeps a member of its own | not executed | Json2Pptx.CollisionLosesLayout | Json2Pptx.UniqueMembersOfSpec |
| json2pptx.py:87-92 | the default title is `{"title": {"runs": [...]}}`, but the runs are read from its top level, so they are `[]` | a slide without a `title` key | an untitled slide gets the run "제목없음." | not executed | Json2Pptx.UntitledGetsNoRuns | Json2Pptx.IntendedTitleRunsSpec |
| slides_to_pptx.py:443 | without headers the column count is `rows[0]`, a list, not its length, so `add_table` gets a list and raises TypeError | a table with `headers: []` and `rows: [["a"]]` (or `[[]]`) | the first row's length is the column count | not executed | SlidesToPptx.TableWithoutHeadersCrashes | SlidesToPptx.TableCellsSpec |
