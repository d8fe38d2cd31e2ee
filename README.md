# Markdown-to-Word converters, modelled in Dafny

The repository holds four Python scripts that turn a markdown text into a Word
document:

- `convert_with_toc.py`: a title, a cover page and a "Sommaire" page with a Word
  TOC field, then the body. Code blocks are shaded.
- `create_manual_toc.py`: a title, a cover page and a table of contents written
  out as paragraphs from a raw-line heading scan, then the body. Code blocks are
  shaded.
- `convert_to_docx_improved.py`: a title, a "Table des matières" heading with no
  table under it, then the body. Code blocks are plain. A code-block cleaner is
  defined but never called.
- `convert_to_docx.py`: works on the HTML that a markdown library produces. It
  takes the first `<h1>` as the title. It then tries each HTML line against the
  h2, h3, p, ul and code patterns, in that order.

The first three scripts share one hand-written line scanner, modelled once in
module `Scanner`:

- `Step` is one pass of the `while i < len(lines)` loop: the elements it appends
  and the next value of `i`.
- `Body` is everything the loop appends from line `i` on.
- `ScanBody` and `ScanLine` are the loops themselves, as methods that append to
  a `Document`. `CollectFence` and `CollectParagraph` are the inner loops, as
  methods that take the lines and return the collected block or text. Each is
  proved against those functions.

The scanner picks a branch by testing the **stripped** line. The fence collector
and the paragraph joiner test the **raw** following lines. The model keeps both,
so an indented closing fence does not close a block, and an indented `## ` line
joins a paragraph.

The python-docx document is a class `Docx.Document` with one field,
`elements: seq<Element>`. Every `add_heading`, `add_paragraph` and
`add_page_break` call appends one element through `Document.Add`. Fonts, sizes,
colours, shading and styles are plain fields of the element records.

For `convert_to_docx.py`, module `Regex` models Python's `re` on the seven
literal-delimited lazy patterns `open(.*?)close`:

- the leftmost match (`search`);
- the shortest group;
- `.` not crossing `'\n'` unless DOTALL;
- `findall` resuming after each match;
- `str.replace`.

Module `Entities` proves that the `&lt;`, `&gt;`, `&amp;` replacement order
undoes HTML escaping.

Modules:

- `Wrappers`: `Option`.
- `Strings`: `isspace`, `strip`, `startswith`, `split`, `join`.
- `Seqs`: per-line concatenation.
- `Docx`: elements, the document, the cover page.
- `Scanner`: title and body scan.
- `WithToc`, `ManualToc`, `Improved`, `HtmlConvert`: one per script.
- `Regex`, `Entities`.

Behaviours of the scripts that a reader might not expect:

- The title is the rest of the first raw `# ` line and is **not** trimmed. An
  empty title emits nothing, and it hides a later `# X` line
  (`Scanner.EmptyTitleHidesLaterOnes`).
- The manual table of contents is not built from the body's headings. It comes
  from a separate scan of the raw lines, so:
  - headings inside code fences are listed;
  - indented headings are not listed;
  - the listed text is stripped while the body keeps it
    (`ManualToc.FencedHeadingListedButNotInBody`,
    `ManualToc.IndentedHeadingInBodyButNotListed`, `ManualToc.TocTextIsStripped`).
- The fence's language tag is computed and then dropped. A code block keeps only
  its lines (`Scanner.FenceWithLanguageExample`).
- A fence closes at a raw line starting with the backticks, not at an indented
  one (`Scanner.IndentedFenceDoesNotClose`).
- In `convert_to_docx.py` the `<h1>` title pattern has no DOTALL. The title is
  searched in the whole HTML, so it can never span lines
  (`HtmlConvert.TitleIsFirstMatch`).
- The dispatch works line by line. A list that the renderer spreads over
  several lines therefore emits no bullet (`HtmlConvert.MultiLineListDropped`).
  A paragraph or a code block spread over several lines emits nothing at all
  (`HtmlConvert.MultiLineParagraphDropped`, `HtmlConvert.MultiLineCodeDropped`).
  The items of a loose list, which the renderer writes as `<p>` lines, come out
  as plain paragraphs instead.

## Model

| member | source | states |
|---|---|---|
| Scanner.FindTitle | convert_with_toc.py:58-62 | the title loop returns the rest of the first raw line starting with `# `, or none |
| Scanner.TitleIsFirstHashLine | convert_with_toc.py:58-62 | if line k is the first raw `# ` line, the title is `lines[k][2..]`, unstripped, whatever follows |
| Scanner.NoHashLineNoTitle | convert_with_toc.py:58-62 | without a raw `# ` line there is no title |
| Scanner.TitleHeadingFromFirstHashLine | convert_with_toc.py:58-66 | when line k is the first raw `# ` line, the title heading is the centred level-0 heading of `lines[k][2..]`, unstripped, or nothing when that rest is empty, whatever the later lines hold |
| Scanner.NoHashLineNoTitleHeading | convert_with_toc.py:58-66 | without a raw `# ` line no title heading is emitted |
| Scanner.AddTitle | convert_with_toc.py:64-66 | appends exactly the title elements and nothing else |
| Scanner.EmptyTitleHidesLaterOnes | convert_with_toc.py:58-66 | a bare `# ` line gives no title heading even when a later `# X` line exists |
| Docx.Document.Add | convert_with_toc.py:69-75 | every `add_*` call appends its one element at the end and keeps the earlier ones |
| Docx.AddCoverPage | convert_with_toc.py:68-75 | the cover is blank, the two subtitles, blank, page break, in that order, appended after what was there |
| WithToc.AddTocField | convert_with_toc.py:19-36 | the field run holds exactly four children: fldChar begin, the `TOC \o "1-3" \h \z \u` instruction, fldChar separate, fldChar end |
| WithToc.AddTocPage | convert_with_toc.py:77-86 | appends the centred level-1 "Sommaire" heading, the paragraph holding the field, and a page break |
| WithToc.Convert | convert_with_toc.py:57-158 | the script builds title, cover, TOC page and then the scanned body with shaded code |
| WithToc.FrontMatterPrecedesBody | convert_with_toc.py:64-86 | in every converted document the cover ends at the first page break, "Sommaire" and the field follow, the second page break ends the front matter, these are the only page breaks, and every later element is body content |
| WithToc.Layout | convert_with_toc.py:68-86 | the same layout holds for any title and any body of content elements |
| Scanner.FenceEnd | convert_with_toc.py:122-124 | the fence closes at the first raw line from j on that starts with the backticks, or at the end; no raw line before it starts with them |
| Scanner.ParagraphEnd | convert_with_toc.py:146-148 | the joiner stops at the first raw line that is blank after stripping or starts with `#`, `-` or backticks; every line before it is joinable |
| Scanner.CollectFence | convert_with_toc.py:118-124 | the collector's block is the raw lines between the opening fence and FenceEnd, verbatim |
| Scanner.CollectParagraph | convert_with_toc.py:144-148 | the joiner's text is the stripped first line followed by the stripped joinable lines, and it stops at ParagraphEnd |
| Scanner.Step | convert_with_toc.py:92-158 | each pass strictly raises `i`, by at most the rest of the input plus one, so the loop terminates and visits each line at most once |
| Scanner.ScanLine | convert_with_toc.py:93-158 | one pass of the loop appends exactly the step's elements and returns the step's next index |
| Scanner.ScanBody | convert_with_toc.py:89-158 | the scan loop appends exactly Body(lines, 0) |
| Scanner.BodyElementsAreContent | convert_with_toc.py:92-158 | the body only holds uncentred level-1/2 headings, bullets, paragraphs, code and blank paragraphs: never a page break, subtitle or TOC element |
| Scanner.CodeAlwaysFollowedByBlank | convert_with_toc.py:127-139 | every code paragraph of the body is immediately followed by a blank paragraph |
| Scanner.PlainLinesMakeOneParagraph | convert_with_toc.py:142-156 | a paragraph line followed only by joinable lines becomes one paragraph: the stripped lines joined by single spaces |
| Scanner.UnterminatedFenceTakesRest | convert_with_toc.py:116-139 | a fence with no closing raw line takes every remaining line into one code paragraph and a blank, or emits nothing when no line is left |
| Scanner.SingleLinesMapOneByOne | convert_with_toc.py:96-113 | when every stripped line is empty or starts with `#` or `-`, each line is handled on its own and in order: a heading per `## `/`### ` line, a bullet per `- ` line, nothing for the rest |
| Scanner.IndentedFenceDoesNotClose | convert_with_toc.py:122-124 | an indented closing fence is collected as code, and the block runs to the end |
| Scanner.UnterminatedFenceExample | convert_with_toc.py:116-139 | an unterminated fence over `foo` gives one code paragraph `foo` and a blank |
| Scanner.FenceWithLanguageExample | convert_with_toc.py:116-139 | a fence tagged `py` over two lines gives their `\n`-join, with the tag dropped |
| Scanner.EmptyFenceEmitsNothing | convert_with_toc.py:127-139 | a fence with no lines emits nothing |
| Scanner.IndentedHeadingJoinsParagraph | convert_with_toc.py:142-148 | an indented `## ` line after a paragraph line is joined to it as text, because the raw line does not start with `#` |
| Scanner.BlankLineSeparatesParagraphs | convert_with_toc.py:142-156 | a blank line separates two paragraphs |
| Scanner.UnmatchedMarkersEmitNothing | convert_with_toc.py:96-142 | `#### x`, `---` and a `# ` line emit nothing in the body |
| Scanner.HeadingsAndBulletExample | convert_with_toc.py:96-113 | `## ` gives a level-1 16pt (0,0,128) heading, `### ` a level-2 14pt (0,0,100) heading, `- ` a bullet, each from the text after the marker |
| ManualToc.ExtractHeadings | create_manual_toc.py:27-32 | the extraction loop returns TocHeadings of the lines |
| ManualToc.TocHeadingsAppend | create_manual_toc.py:27-32 | extraction works line by line: the headings of a concatenation are those of each part, in order |
| ManualToc.TocHeadingsAt | create_manual_toc.py:27-32 | each raw line contributes its own heading (depth, stripped text) at its own position, between those of the lines before and after it |
| ManualToc.TocEntryRuns | create_manual_toc.py:71-90 | a TOC paragraph holds the heading run, exactly 50 single-dot runs, then the placeholder ` X` run, and nothing else |
| ManualToc.RenderTocEntry | create_manual_toc.py:72-90 | the loop adding 50 dots builds the TOC paragraph of the heading |
| ManualToc.TocEntriesAt | create_manual_toc.py:71-90 | there is one TOC paragraph per heading, and the k-th renders the k-th heading |
| ManualToc.WriteToc | create_manual_toc.py:71-90 | the TOC loop appends the entries of all headings in order |
| ManualToc.Convert | create_manual_toc.py:27-165 | the script builds title, cover, "Sommaire", blank, the entries, a page break and the shaded body |
| ManualToc.DocumentLayout | create_manual_toc.py:46-93 | in every converted document the cover ends at the first page break, the entries follow "Sommaire" and equal the rendered headings, the second page break closes them, these are the only page breaks, and all later elements are body content |
| ManualToc.Layout | create_manual_toc.py:52-93 | the same layout holds for any title, heading list and body of content elements |
| ManualToc.CoverLayout | create_manual_toc.py:52-68 | the part before the entries holds one page break, after the subtitles, and then "Sommaire" |
| ManualToc.EntriesFollowHeadings | create_manual_toc.py:71-83 | headings (h2 A, h3 B, h2 C) give entries in that order with styles TOC 1/2/1, indents 1/2/1 quarter-inch units, bold 12pt for h2 and 11pt for h3 |
| ManualToc.FencedHeadingListedButNotInBody | create_manual_toc.py:27-32 | a `## ` line inside a fence is listed in the TOC, while the body renders it as code |
| ManualToc.IndentedHeadingInBodyButNotListed | create_manual_toc.py:28-32 | an indented `## ` line is a body heading but is not listed |
| ManualToc.TocTextIsStripped | create_manual_toc.py:29-30 | the TOC text is stripped, the body heading keeps the spaces after the marker |
| Improved.TrimEdges | convert_to_docx_improved.py:44-48 | the result is exactly the lines from `lo` on, less `hi` at the end, where `lo` is 1 when line 0 is blank and `hi` is 1 when a line remains after that and the last line is blank: at most one line goes at each end, and every other line stays, in order |
| Improved.CleanCodeBlockLines | convert_to_docx_improved.py:42-50 | splitting the cleaned text again gives back the trimmed lines verbatim (when any is left) |
| Improved.CleanCodeBlockKeepsTrimmedText | convert_to_docx_improved.py:42-50 | a block with non-blank first and last lines comes out unchanged |
| Improved.BlankLineCleansToEmpty | convert_to_docx_improved.py:42-50 | a single blank line cleans to the empty text |
| Improved.CleanCodeBlockTrimsOnce | convert_to_docx_improved.py:44-48 | a witness that cleaning is not idempotent: `"\n\nx"` cleans to `"\nx"`, and that cleans to `"x"`, because the `TrimEdges` contract removes only one blank line from each end |
| Improved.Convert | convert_to_docx_improved.py:53-135 | the script builds the title, the "Table des matières" heading, a blank, then the body with plain code |
| Improved.NoTableOfContents | convert_to_docx_improved.py:63-70 | after the title come the heading and then body content only: no entries, no cover, no page break |
| Improved.CodeBlockNotCleaned | convert_to_docx_improved.py:97-116 | the scan keeps a code block's blank first line, which the unused cleaner would drop |
| HtmlConvert.TitleIsFirstMatch | convert_to_docx.py:41-44 | the title is the group of the leftmost `<h1>...</h1>` in the whole HTML, and it never spans a line |
| HtmlConvert.Convert | convert_to_docx.py:41-104 | the script emits the first `<h1>` group as a centred title whenever one exists, even empty, then each line's elements in order |
| HtmlConvert.ScanLines | convert_to_docx.py:47-104 | the dispatch loop appends each line's elements in line order |
| HtmlConvert.EmitLine | convert_to_docx.py:50-104 | one pass appends what the first matching pattern among h2, h3, p, ul, code emits, or nothing |
| HtmlConvert.HtmlBodyAppend | convert_to_docx.py:49-104 | lines are handled independently: the output of a concatenation is the output of each part |
| HtmlConvert.AddBullets | convert_to_docx.py:82-84 | the item loop appends one bullet per item in order |
| HtmlConvert.Bullets | convert_to_docx.py:82-84 | one bullet per item, the k-th holding the k-th item |
| HtmlConvert.CodeAlwaysFollowedByBlank | convert_to_docx.py:89-101 | every code paragraph is immediately followed by a blank paragraph |
| HtmlConvert.HeadingLine | convert_to_docx.py:53-59 | an `<h2>x</h2>` line gives one level-1 heading with text x, inline tags included, when no tag of x starts like a closing heading tag |
| HtmlConvert.H3HeadingLine | convert_to_docx.py:53-68 | an `<h3>x</h3>` line gives one level-2 heading with text x, inline tags included, when no tag of x starts like an h2 tag, which is tried first, or a closing heading tag |
| HtmlConvert.ParagraphVerbatim | convert_to_docx.py:71-76 | a `<p>x</p>` line gives a paragraph with x verbatim, inline tags and entities untouched, when no tag of x starts like `<h2`, `<h3` or `</p` |
| HtmlConvert.FindAllItems | convert_to_docx.py:82 | findall of the item pattern over a run of `<li>` items gives back every item in order, inline tags included, when no tag inside an item starts like `</li>` |
| HtmlConvert.ListLine | convert_to_docx.py:79-86 | a `<ul>` line of `<li>` items gives one bullet per item, left to right, inline tags included, when no inline tag starts like a heading, paragraph or closing list tag |
| HtmlConvert.CodeLine | convert_to_docx.py:89-101 | a one-line code block of escaped text gives a plain code paragraph of the original text, then a blank |
| HtmlConvert.SilentLine | convert_to_docx.py:49-104 | a line none of whose tags starts like a dispatched pattern emits nothing |
| HtmlConvert.OpenListLineSilent | convert_to_docx.py:79-86 | a line holding only `<ul>` emits nothing |
| HtmlConvert.ItemLineSilent | convert_to_docx.py:79-86 | a line holding only an `<li>` item emits nothing |
| HtmlConvert.CloseListLineSilent | convert_to_docx.py:79-86 | a line holding only `</ul>` emits nothing |
| HtmlConvert.MultiLineListDropped | convert_to_docx.py:47-104 | a list spread over three lines emits no bullet at all |
| HtmlConvert.MultiLineParagraphDropped | convert_to_docx.py:47-104 | a paragraph spread over two lines, `<p>a` then `b</p>`, emits nothing: no line matches a pattern |
| HtmlConvert.MultiLineCodeDropped | convert_to_docx.py:47-104 | a code block spread over two lines, `<pre><code>a` then `b</code></pre>`, emits nothing |
| HtmlConvert.PatternOrderBeatsPosition | convert_to_docx.py:53-76 | a line with a paragraph before an h2 heading gives the heading only: the pattern order decides, not the position |
| Entities.UnescapeEscape | convert_to_docx.py:93 | replacing `&lt;`, then `&gt;`, then `&amp;` gives back any text from its HTML escaping |
| Entities.EscapedEntitySurvives | convert_to_docx.py:93 | `&amp;lt;` becomes `&lt;`, not `<`, because `&amp;` is replaced last |
| Entities.EscapeNoLt | convert_to_docx.py:93 | escaped text holds no `<`, and no line break unless the text had one |
| Regex.LazyCloseSpec | convert_to_docx.py:32-38 | the lazy group has length k exactly when the close tag follows at k, `.` could cover the first k characters, and the close tag starts nowhere earlier |
| Regex.LazyCloseOneLine | convert_to_docx.py:32-34 | without DOTALL the group holds no line break |
| Regex.MatchHereSpec | convert_to_docx.py:32-38 | a pattern matches at a position exactly when the open tag starts there and the lazy group closes after it |
| Regex.SearchLeftmost | convert_to_docx.py:53 | search returns a real match with no match at any earlier position; no result means no match anywhere |
| Regex.SearchGroupOneLine | convert_to_docx.py:32-34 | a group found without DOTALL holds no line break |
| Regex.FindAllFirst | convert_to_docx.py:41-43 | findall is non-empty exactly when search matches, and its first item is the search group |
| Regex.NoMatchWithoutOpen | convert_to_docx.py:53-89 | a text in which the open tag occurs nowhere has no match |
| Regex.NoMatchByPrefixes | convert_to_docx.py:53-89 | a text none of whose tags starts like the open tag has no match |
| Regex.NoMatchWithoutClose | convert_to_docx.py:53-89 | a text in which no tag starts like the closing delimiter has no match, even where the opening delimiter occurs |
| Regex.SearchSkip | convert_to_docx.py:53-89 | a prefix with no match position leaves the search of the rest unchanged, shifted by its length |
| Regex.SearchGroupSkip | convert_to_docx.py:53-89 | such a prefix leaves the search group unchanged |
| Regex.SearchAtFront | convert_to_docx.py:53-89 | when the open tag starts the text and the group closes, search returns that group |
| Regex.MatchFront | convert_to_docx.py:53-89 | open tag, a group x without the close tag's first character, close tag: search returns x |
| Regex.LazyCloseSkip | convert_to_docx.py:32-38 | the group stops at the first close tag after a text that cannot start it |
| Regex.ReplaceSkip | convert_to_docx.py:93 | a part without the pattern's first character is kept by `str.replace` |
| Strings.TrimStartSpec | convert_with_toc.py:93 | `lstrip` drops exactly the leading whitespace: the result is a suffix, everything dropped is whitespace, and the result does not start with whitespace |
| Strings.TrimEndSpec | convert_with_toc.py:93 | `rstrip` drops exactly the trailing whitespace |
| Strings.StripSpec | convert_with_toc.py:93 | `strip` is empty exactly on all-whitespace text, otherwise it starts and ends with non-whitespace |
| Strings.StripInfix | convert_with_toc.py:93 | `strip` is the infix after the leading whitespace |
| Strings.StripClean | convert_with_toc.py:93 | a text not starting or ending with whitespace is its own strip |
| Strings.Split | convert_with_toc.py:89 | `split('\n')` gives at least one piece, and no piece holds the separator |
| Strings.JoinSplit | convert_to_docx_improved.py:42-50 | joining the pieces of a split with the separator gives the text back |
| Strings.SplitJoin | convert_to_docx_improved.py:42-50 | splitting a join of separator-free pieces gives the pieces back |
| Strings.SplitNoSeparator | convert_with_toc.py:89 | a text without the separator splits into itself |
| Strings.SplitAfterFirstSeparator | convert_with_toc.py:89 | splitting at the first separator gives the piece before it, then the split of the rest |

## Left out

- File reading, `doc.save` and the `print` messages. The model takes the
  markdown or HTML text and yields the element sequence.
- The `markdown.markdown` calls. They are library code. In
  `convert_to_docx.py` the HTML text is the model's input, and in
  `convert_to_docx_improved.py` the result is unused.
- python-docx internals. The XML built by `add_shading_to_paragraph` and
  `add_toc_field` becomes the element fields (`shading`, `TocField` items).
  Styles, `Pt` and `RGBColor` become plain numbers.
- Page margins (`Inches(0.8)`, `Inches(1)`). These are floating point with no
  logic. The TOC indents of 0.25 and 0.5 inch are whole quarter-inch units, 1
  and 2.
- The heading style mutation (`heading.style.font...`). It changes a style
  shared by every heading of that level. The model gives each body heading the
  size and colour of its level, and records no size or colour (`None`) for the
  centred headings. But the "Sommaire" and "Table des matières" headings are
  level 1 too, so they share the style that a `## ` line changes. In the
  document they end up 16pt (0, 0, 128) whenever the body has a `## ` heading.
  The model does not capture this.
- `clean_html_text`. It is never called, and it depends on `html.unescape`.
- The `html.unescape` step of `process_code_block`. It is library code over all
  of HTML's named entities. `Improved.CleanCodeBlock` models the line trimming on
  already-unescaped text.
- `code_language`. It is computed and never used.
- The `i < len(lines)` test on the code branch of `convert_to_docx.py`. It always
  holds inside the loop.
- Only the seven patterns the script uses are modelled: a literal open tag, a
  lazy `.*?` group and a literal close tag. General Python regular expressions
  are not.
- Python strings are sequences of code points. `Strings.IsSpace` lists the code
  points for which `str.isspace()` holds. There is no other Unicode handling.
