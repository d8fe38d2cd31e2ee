/** The markdown scanner shared, with small differences in code styling, by
    convert_with_toc.py, create_manual_toc.py and convert_to_docx_improved.py:
    the title search over the raw lines and the `while i < len(lines)` loop that
    turns the lines into body elements.

    The loop tests the STRIPPED line to pick a branch, but the fence collector
    and the paragraph joiner test the RAW following lines; Step keeps both. */
module Scanner {
  import opened Wrappers
  import opened Strings
  import opened Docx
  import opened Seqs

  const Fence := "```"

  /** How a script renders a fenced block: black text on an EEEEEE shading
      (the two TOC scripts) or with no colour and no shading (the improved one). */
  datatype CodeStyle = Shaded | Plain

  function CodeParagraph(text: string, style: CodeStyle): Element {
    match style
    case Shaded => Code(text, "Courier New", 9, Some(Rgb(0, 0, 0)), Some("EEEEEE"))
    case Plain => Code(text, "Courier New", 9, None, None)
  }

  // ---------------------------------------------------------------- title

  /** The rest of the first raw line that starts with `# `, unstripped;
      later `# ` lines are never looked at. */
  function TitleOf(lines: seq<string>): Option<string> {
    if lines == [] then None
    else if StartsWith(lines[0], "# ") then Some(lines[0][2..])
    else TitleOf(lines[1..])
  }

  /** The `for line in ...: if line.startswith('# '): title = line[2:]; break` loop. */
  method FindTitle(lines: seq<string>) returns (title: Option<string>)
    ensures title == TitleOf(lines)
  {
    title := None;
    var k := 0;
    while k < |lines|
      invariant 0 <= k <= |lines|
      invariant TitleOf(lines) == TitleOf(lines[k..])
    {
      assert lines[k..][1..] == lines[k + 1..];
      if StartsWith(lines[k], "# ") {
        title := Some(lines[k][2..]);
        return;
      }
      k := k + 1;
    }
  }

  /** Adds the centred level-0 title heading when the title is non-empty. */
  method AddTitle(doc: Document, title: Option<string>)
    modifies doc
    ensures doc.elements == old(doc.elements) + TitleElements(title)
  {
    if title.Some? && title.value != "" {
      doc.Add(CentredHeading(0, title.value));
    } else {
      assert old(doc.elements) + [] == old(doc.elements);
    }
  }

  /** The title is taken from the first `# ` line, whatever follows it. */
  lemma {:induction false} TitleIsFirstHashLine(lines: seq<string>, k: nat)
    requires k < |lines| && StartsWith(lines[k], "# ")
    requires forall m :: 0 <= m < k ==> !StartsWith(lines[m], "# ")
    ensures TitleOf(lines) == Some(lines[k][2..])
  {
    if k > 0 {
      assert !StartsWith(lines[0], "# ");
      assert forall m :: 0 <= m < k - 1 ==> lines[1..][m] == lines[m + 1];
      TitleIsFirstHashLine(lines[1..], k - 1);
    }
  }

  /** Without a `# ` line there is no title. */
  lemma {:induction false} NoHashLineNoTitle(lines: seq<string>)
    requires forall m :: 0 <= m < |lines| ==> !StartsWith(lines[m], "# ")
    ensures TitleOf(lines) == None
  {
    if lines != [] {
      assert forall m :: 0 <= m < |lines| - 1 ==> lines[1..][m] == lines[m + 1];
      NoHashLineNoTitle(lines[1..]);
    }
  }

  /** `if title: doc.add_heading(title, level=0)`, centred: an empty title
      (the line was exactly `# `) is falsy and emits nothing. */
  function TitleElements(title: Option<string>): seq<Element> {
    if title.Some? && title.value != "" then [CentredHeading(0, title.value)] else []
  }

  /** The title heading comes from the first raw `# ` line alone: it is that
      line's rest, unstripped, as a centred level-0 heading, or nothing when
      the rest is empty, whatever the later lines hold. */
  lemma {:induction false} TitleHeadingFromFirstHashLine(lines: seq<string>, k: nat)
    requires k < |lines| && StartsWith(lines[k], "# ")
    requires forall m :: 0 <= m < k ==> !StartsWith(lines[m], "# ")
    ensures TitleElements(TitleOf(lines))
            == if lines[k][2..] == "" then [] else [CentredHeading(0, lines[k][2..])]
  {
    TitleIsFirstHashLine(lines, k);
  }

  /** Without a raw `# ` line no title heading is emitted. */
  lemma {:induction false} NoHashLineNoTitleHeading(lines: seq<string>)
    requires forall m :: 0 <= m < |lines| ==> !StartsWith(lines[m], "# ")
    ensures TitleElements(TitleOf(lines)) == []
  {
    NoHashLineNoTitle(lines);
  }

  /** An empty first title hides a later `# X` line. */
  lemma EmptyTitleHidesLaterOnes()
    ensures TitleElements(TitleOf(["# ", "# X"])) == []
  {
    assert StartsWith("# ", "# ");
  }

  // ---------------------------------------------------------------- body

  /** Index of the raw line that closes a fence whose contents start at `j`:
      the first raw line from `j` on that starts with the fence, or the end. */
  function FenceEnd(lines: seq<string>, j: nat): (k: nat)
    requires j <= |lines|
    ensures j <= k <= |lines|
    ensures k < |lines| ==> StartsWith(lines[k], Fence)
    ensures forall m :: j <= m < k ==> !StartsWith(lines[m], Fence)
    decreases |lines| - j
  {
    if j == |lines| || StartsWith(lines[j], Fence) then j else FenceEnd(lines, j + 1)
  }

  /** Whether a raw line following a paragraph's first line is joined to it. */
  predicate JoinsParagraph(raw: string) {
    Strip(raw) != "" && !StartsWith(raw, "#") && !StartsWith(raw, "-") && !StartsWith(raw, Fence)
  }

  /** Index of the first raw line from `j` on that is not joined, or the end. */
  function ParagraphEnd(lines: seq<string>, j: nat): (k: nat)
    requires j <= |lines|
    ensures j <= k <= |lines|
    ensures k < |lines| ==> !JoinsParagraph(lines[k])
    ensures forall m :: j <= m < k ==> JoinsParagraph(lines[m])
    decreases |lines| - j
  {
    if j == |lines| || !JoinsParagraph(lines[j]) then j else ParagraphEnd(lines, j + 1)
  }

  function StripAll(ls: seq<string>): seq<string> {
    seq(|ls|, k requires 0 <= k < |ls| => Strip(ls[k]))
  }

  /** Taking one more line of a slice adds its stripped form at the end. */
  lemma StripAllSnoc(ls: seq<string>, a: nat, b: nat)
    requires a <= b < |ls|
    ensures StripAll(ls[a..b + 1]) == StripAll(ls[a..b]) + [Strip(ls[b])]
  {
  }

  /** Whether a stripped line that is not a heading, bullet or fence starts a paragraph. */
  predicate StartsParagraph(line: string) {
    line != "" && !StartsWith(line, "#") && !StartsWith(line, "-")
  }

  /** One iteration of the scan loop at line `i`: the elements it appends and
      the value of `i` after the final `i += 1`. */
  function Step(lines: seq<string>, i: nat, style: CodeStyle): (r: (seq<Element>, nat))
    requires i < |lines|
    ensures i < r.1 <= |lines| + 1
  {
    var line := Strip(lines[i]);
    if StartsWith(line, "## ") then ([BodyHeading(H2, line[3..])], i + 1)
    else if StartsWith(line, "### ") then ([BodyHeading(H3, line[4..])], i + 1)
    else if StartsWith(line, "- ") then ([Bullet(line[2..])], i + 1)
    else if StartsWith(line, Fence) then
      var close := FenceEnd(lines, i + 1);
      var block := lines[i + 1..close];
      (if block != [] then [CodeParagraph(Join(block, "\n"), style), Blank] else [], close + 1)
    else if StartsParagraph(line) then
      var stop := ParagraphEnd(lines, i + 1);
      ([Para(Join([line] + StripAll(lines[i + 1..stop]), " "))], stop)
    else ([], i + 1)
  }

  /** Everything the scan loop appends when it starts at line `i`. */
  function Body(lines: seq<string>, i: nat, style: CodeStyle): seq<Element>
    decreases |lines| + 1 - i
  {
    if i >= |lines| then []
    else
      var (es, next) := Step(lines, i, style);
      es + Body(lines, next, style)
  }

  /** The fence collector: the raw lines after the opening fence at `open`,
      up to the first raw line that starts with the fence (an indented one does
      not count), or to the end of the input. */
  method CollectFence(lines: seq<string>, open: nat) returns (codeBlock: seq<string>, i: nat)
    requires open < |lines|
    ensures i == FenceEnd(lines, open + 1)
    ensures codeBlock == lines[open + 1..i]
  {
    codeBlock := [];
    i := open + 1;
    while i < |lines| && !StartsWith(lines[i], Fence)
      invariant open < i <= |lines|
      invariant codeBlock == lines[open + 1..i]
      invariant FenceEnd(lines, i) == FenceEnd(lines, open + 1)
      decreases |lines| - i
    {
      codeBlock := codeBlock + [lines[i]];
      i := i + 1;
    }
  }

  /** The paragraph joiner: the stripped first line followed by the stripped
      forms of the raw lines that JoinsParagraph accepts; `nextI` is the first
      line not joined. */
  method CollectParagraph(lines: seq<string>, i: nat, line: string)
    returns (paragraphText: seq<string>, nextI: nat)
    requires i < |lines|
    ensures nextI == ParagraphEnd(lines, i + 1)
    ensures paragraphText == [line] + StripAll(lines[i + 1..nextI])
  {
    paragraphText := [line];
    nextI := i + 1;
    while nextI < |lines| && JoinsParagraph(lines[nextI])
      invariant i < nextI <= |lines|
      invariant paragraphText == [line] + StripAll(lines[i + 1..nextI])
      invariant ParagraphEnd(lines, nextI) == ParagraphEnd(lines, i + 1)
      decreases |lines| - nextI
    {
      assert ParagraphEnd(lines, nextI) == ParagraphEnd(lines, nextI + 1);
      StripAllSnoc(lines, i + 1, nextI);
      paragraphText := paragraphText + [Strip(lines[nextI])];
      nextI := nextI + 1;
    }
  }

  lemma BodyUnfold(lines: seq<string>, i: nat, style: CodeStyle)
    requires i < |lines|
    ensures Body(lines, i, style) == Step(lines, i, style).0 + Body(lines, Step(lines, i, style).1, style)
  {
  }

  /** Appending one step's elements leaves the rest of the body to scan from
      the step's next line. */
  lemma ScanStep(before: seq<Element>, after: seq<Element>, lines: seq<string>, i: nat, next: nat, style: CodeStyle)
    requires i < |lines|
    requires after == before + Step(lines, i, style).0 && next == Step(lines, i, style).1
    ensures i < next && after + Body(lines, next, style) == before + Body(lines, i, style)
  {
    BodyUnfold(lines, i, style);
    AppendAssoc(before, Step(lines, i, style).0, Body(lines, next, style));
  }

  /** One pass through the body of the scan loop at line `i`; `next` is the
      value of `i` after its final `i += 1`. */
  method ScanLine(doc: Document, lines: seq<string>, i: nat, style: CodeStyle) returns (next: nat)
    requires i < |lines|
    modifies doc
    ensures doc.elements == old(doc.elements) + Step(lines, i, style).0
    ensures next == Step(lines, i, style).1
  {
    next := i;
    var line := Strip(lines[i]);
    if StartsWith(line, "## ") {
      doc.Add(BodyHeading(H2, line[3..]));
    } else if StartsWith(line, "### ") {
      doc.Add(BodyHeading(H3, line[4..]));
    } else if StartsWith(line, "- ") {
      doc.Add(Bullet(line[2..]));
    } else if StartsWith(line, Fence) {
      var codeBlock;
      codeBlock, next := CollectFence(lines, i);
      if codeBlock != [] {
        doc.Add(CodeParagraph(Join(codeBlock, "\n"), style));
        doc.Add(Blank);
      }
    } else if line != "" && !StartsWith(line, "#") && !StartsWith(line, "-") {
      var paragraphText, nextI := CollectParagraph(lines, i, line);
      if paragraphText != [] {
        doc.Add(Para(Join(paragraphText, " ")));
        next := nextI - 1;
      }
    }
    next := next + 1;
  }

  /** The scan loop itself: `while i < len(lines)`, each pass raising `i`. */
  method ScanBody(doc: Document, lines: seq<string>, style: CodeStyle)
    modifies doc
    ensures doc.elements == old(doc.elements) + Body(lines, 0, style)
  {
    var i := 0;
    while i < |lines|
      invariant 0 <= i <= |lines| + 1
      invariant doc.elements + Body(lines, i, style) == old(doc.elements) + Body(lines, 0, style)
      decreases |lines| + 1 - i
    {
      ghost var before := doc.elements;
      var next := ScanLine(doc, lines, i, style);
      ScanStep(before, doc.elements, lines, i, next, style);
      i := next;
    }
  }

  // ---------------------------------------------------------------- properties

  /** What the body scan can produce: headings of level 1 or 2 (never centred),
      bullets, paragraphs, code paragraphs and blank paragraphs. No page break,
      subtitle or table-of-contents element ever comes from the body. */
  predicate IsBodyElement(e: Element) {
    e.Bullet? || e.Para? || e.Code? || e.Blank? || (e.Heading? && (e.level == 1 || e.level == 2) && !e.centred)
  }

  lemma {:induction false} BodyElementsAreContent(lines: seq<string>, i: nat, style: CodeStyle)
    ensures forall e :: e in Body(lines, i, style) ==> IsBodyElement(e)
    decreases |lines| + 1 - i
  {
    if i < |lines| {
      BodyUnfold(lines, i, style);
      BodyElementsAreContent(lines, Step(lines, i, style).1, style);
    }
  }

  /** Every code paragraph is immediately followed by a blank paragraph. */
  predicate CodeThenBlank(es: seq<Element>) {
    forall k :: 0 <= k < |es| && es[k].Code? ==> k + 1 < |es| && es[k + 1] == Blank
  }

  lemma CodeThenBlankConcat(a: seq<Element>, b: seq<Element>)
    requires CodeThenBlank(a) && CodeThenBlank(b)
    ensures CodeThenBlank(a + b)
  {
    forall k | 0 <= k < |a + b| && (a + b)[k].Code?
      ensures k + 1 < |a + b| && (a + b)[k + 1] == Blank
    {
      if k >= |a| {
        assert (a + b)[k] == b[k - |a|];
      }
    }
  }

  lemma {:induction false} CodeAlwaysFollowedByBlank(lines: seq<string>, i: nat, style: CodeStyle)
    ensures CodeThenBlank(Body(lines, i, style))
    decreases |lines| + 1 - i
  {
    if i < |lines| {
      var (es, next) := Step(lines, i, style);
      BodyUnfold(lines, i, style);
      CodeAlwaysFollowedByBlank(lines, next, style);
      CodeThenBlankConcat(es, Body(lines, next, style));
    }
  }

  lemma {:induction false} ParagraphEndAtEnd(lines: seq<string>, j: nat)
    requires j <= |lines|
    requires forall m :: j <= m < |lines| ==> JoinsParagraph(lines[m])
    ensures ParagraphEnd(lines, j) == |lines|
    decreases |lines| - j
  {
    if j < |lines| {
      ParagraphEndAtEnd(lines, j + 1);
    }
  }

  /** A run of lines that starts a paragraph and whose following raw lines are
      all joinable becomes exactly one paragraph: the stripped lines joined by
      single spaces. */
  lemma PlainLinesMakeOneParagraph(lines: seq<string>, style: CodeStyle)
    requires lines != []
    requires StartsParagraph(Strip(lines[0])) && !StartsWith(Strip(lines[0]), Fence)
    requires forall m :: 1 <= m < |lines| ==> JoinsParagraph(lines[m])
    ensures Body(lines, 0, style) == [Para(Join(StripAll(lines), " "))]
  {
    var line := Strip(lines[0]);
    NotHeadingOrBullet(line);
    ParagraphEndAtEnd(lines, 1);
    assert StripAll(lines) == [line] + StripAll(lines[1..]);
    assert lines[1..|lines|] == lines[1..];
    assert Step(lines, 0, style) == ([Para(Join(StripAll(lines), " "))], |lines|);
    BodyUnfold(lines, 0, style);
  }

  /** A stripped line that starts a paragraph matches none of the earlier branches. */
  lemma NotHeadingOrBullet(line: string)
    requires StartsParagraph(line)
    ensures !StartsWith(line, "## ") && !StartsWith(line, "### ") && !StartsWith(line, "- ")
  {
  }

  /** A fence with no raw closing line after it takes every remaining line. */
  lemma UnterminatedFenceTakesRest(lines: seq<string>, i: nat, style: CodeStyle)
    requires i < |lines| && StartsWith(Strip(lines[i]), Fence)
    requires forall m :: i < m < |lines| ==> !StartsWith(lines[m], Fence)
    ensures Body(lines, i, style)
            == if i + 1 < |lines| then [CodeParagraph(Join(lines[i + 1..], "\n"), style), Blank] else []
  {
    var line := Strip(lines[i]);
    FenceIsNotHeadingOrBullet(line);
    var close := FenceEnd(lines, i + 1);
    assert close == |lines|;
    assert lines[i + 1..close] == lines[i + 1..];
    BodyUnfold(lines, i, style);
    assert Step(lines, i, style).1 == |lines| + 1;
  }

  /** A stripped line that opens a fence matches none of the earlier branches. */
  lemma FenceIsNotHeadingOrBullet(line: string)
    requires StartsWith(line, Fence)
    ensures !StartsWith(line, "## ") && !StartsWith(line, "### ") && !StartsWith(line, "- ")
  {
    assert line[0] == '`';
  }

  /** The elements of a stripped line that starts with `#` or `-` or is empty:
      a heading for `## ` or `### `, a bullet for `- `, nothing otherwise. */
  function SingleLineElements(line: string): seq<Element> {
    if StartsWith(line, "## ") then [BodyHeading(H2, line[3..])]
    else if StartsWith(line, "### ") then [BodyHeading(H3, line[4..])]
    else if StartsWith(line, "- ") then [Bullet(line[2..])]
    else []
  }

  predicate IsSingleLine(raw: string) {
    var line := Strip(raw);
    line == "" || StartsWith(line, "#") || StartsWith(line, "-")
  }

  function SingleLinesElements(ls: seq<string>): seq<Element> {
    if ls == [] then [] else SingleLineElements(Strip(ls[0])) + SingleLinesElements(ls[1..])
  }

  /** A line that IsSingleLine accepts is one step of its own. */
  lemma SingleLineStep(lines: seq<string>, i: nat, style: CodeStyle)
    requires i < |lines| && IsSingleLine(lines[i])
    ensures Step(lines, i, style) == (SingleLineElements(Strip(lines[i])), i + 1)
  {
    var line := Strip(lines[i]);
    assert !StartsWith(line, Fence) by {
      if line != "" {
        assert line[0] == '#' || line[0] == '-';
      }
    }
    assert !StartsParagraph(line);
  }

  /** Without fences and paragraph text, each line is handled on its own and
      in order: one heading per `## `/`### ` line, one bullet per `- ` line. */
  lemma {:induction false} SingleLinesMapOneByOne(lines: seq<string>, i: nat, style: CodeStyle)
    requires i <= |lines|
    requires forall m :: i <= m < |lines| ==> IsSingleLine(lines[m])
    ensures Body(lines, i, style) == SingleLinesElements(lines[i..])
    decreases |lines| - i
  {
    if i < |lines| {
      BodyUnfold(lines, i, style);
      SingleLineStep(lines, i, style);
      SingleLinesMapOneByOne(lines, i + 1, style);
      assert lines[i..][1..] == lines[i + 1..];
    }
  }

  // ---------------------------------------------------------------- examples

  /** An indented closing fence does not close the block. */
  lemma IndentedFenceDoesNotClose(style: CodeStyle)
    ensures Body(["```", "  ```", "x"], 0, style) == [CodeParagraph("  ```\nx", style), Blank]
  {
    var lines := ["```", "  ```", "x"];
    StripClean("```");
    assert StartsWith(lines[0], Fence);
    assert !StartsWith(lines[1], Fence) && !StartsWith(lines[2], Fence);
    UnterminatedFenceTakesRest(lines, 0, style);
    assert lines[1..] == ["  ```", "x"];
    assert Join(["  ```", "x"], "\n") == "  ```" + "\n" + Join(["x"], "\n");
    assert Join(["x"], "\n") == "x";
    assert "  ```" + "\n" + "x" == "  ```\nx";
    assert Body(lines, 0, style) == [CodeParagraph(Join(lines[1..], "\n"), style), Blank];
  }

  /** An unterminated fence still emits its lines, and the scan ends without error. */
  lemma UnterminatedFenceExample(style: CodeStyle)
    ensures Body(["```", "foo"], 0, style) == [CodeParagraph("foo", style), Blank]
  {
    var lines := ["```", "foo"];
    StripClean("```");
    assert StartsWith(lines[0], Fence) && !StartsWith(lines[1], Fence);
    UnterminatedFenceTakesRest(lines, 0, style);
    assert lines[1..] == ["foo"];
  }

  /** The language tag after the opening fence is not used; the closing line is skipped. */
  lemma FenceWithLanguageExample(style: CodeStyle)
    ensures Body(["```py", "x=1", "y=2", "```"], 0, style) == [CodeParagraph("x=1\ny=2", style), Blank]
  {
    var lines := ["```py", "x=1", "y=2", "```"];
    StripClean("```py");
    assert StartsWith(lines[0], Fence);
    FenceIsNotHeadingOrBullet(lines[0]);
    assert !StartsWith(lines[1], Fence) && !StartsWith(lines[2], Fence) && StartsWith(lines[3], Fence);
    assert FenceEnd(lines, 1) == 3;
    assert lines[1..3] == ["x=1", "y=2"];
    assert Join(["x=1", "y=2"], "\n") == "x=1" + "\n" + Join(["y=2"], "\n");
    assert Join(["y=2"], "\n") == "y=2";
    assert "x=1" + "\n" + "y=2" == "x=1\ny=2";
    assert Step(lines, 0, style) == ([CodeParagraph("x=1\ny=2", style), Blank], 4);
    BodyUnfold(lines, 0, style);
  }

  /** A fence with nothing inside emits nothing. */
  lemma EmptyFenceEmitsNothing(style: CodeStyle)
    ensures Body(["```", "```"], 0, style) == []
  {
    var lines := ["```", "```"];
    StripClean("```");
    FenceIsNotHeadingOrBullet(lines[0]);
    assert FenceEnd(lines, 1) == 1;
    assert Step(lines, 0, style) == ([], 2);
    BodyUnfold(lines, 0, style);
  }

  /** An indented `## ` line is not a heading when it follows paragraph text:
      the joiner tests the raw line, which starts with a space. */
  lemma IndentedHeadingJoinsParagraph(style: CodeStyle)
    ensures Body(["Intro", "  ## Setup"], 0, style) == [Para("Intro ## Setup")]
  {
    var lines := ["Intro", "  ## Setup"];
    IntroLineFacts();
    IndentedLineFacts();
    assert forall m :: 1 <= m < |lines| ==> JoinsParagraph(lines[m]);
    PlainLinesMakeOneParagraph(lines, style);
    IntroParagraphText();
  }

  lemma IntroLineFacts()
    ensures StartsParagraph(Strip("Intro")) && !StartsWith(Strip("Intro"), Fence)
  {
    StripClean("Intro");
    assert "Intro"[..1] == "I" && "Intro"[..3] == "Int";
  }

  lemma IndentedLineFacts()
    ensures Strip("  ## Setup") == "## Setup" && JoinsParagraph("  ## Setup")
  {
    assert "  ## Setup" == [' '] + " ## Setup" && " ## Setup" == [' '] + "## Setup";
    StripLeadingSpace(' ', " ## Setup");
    StripLeadingSpace(' ', "## Setup");
    StripClean("## Setup");
    assert "  ## Setup"[..1] == " " && "  ## Setup"[..3] == "  #";
  }

  lemma IntroParagraphText()
    ensures Join(StripAll(["Intro", "  ## Setup"]), " ") == "Intro ## Setup"
  {
    IndentedLineFacts();
    StripClean("Intro");
    assert StripAll(["Intro", "  ## Setup"]) == ["Intro", "## Setup"];
    assert Join(["Intro", "## Setup"], " ") == "Intro" + " " + Join(["## Setup"], " ");
    assert Join(["## Setup"], " ") == "## Setup";
    assert "Intro" + " " + "## Setup" == "Intro ## Setup";
  }

  /** A blank line ends a paragraph: two paragraphs, not one. */
  lemma BlankLineSeparatesParagraphs(style: CodeStyle)
    ensures Body(["line1", "", "line2"], 0, style) == [Para("line1"), Para("line2")]
  {
    var lines := ["line1", "", "line2"];
    StripClean("line1");
    StripClean("");
    StripClean("line2");
    NotHeadingOrBullet("line1");
    NotHeadingOrBullet("line2");
    assert !JoinsParagraph(lines[1]);
    assert ParagraphEnd(lines, 1) == 1;
    assert lines[1..1] == [];
    assert StripAll([]) == [];
    assert Step(lines, 0, style) == ([Para("line1")], 1);
    BodyUnfold(lines, 0, style);
    assert Step(lines, 1, style) == ([], 2);
    BodyUnfold(lines, 1, style);
    assert ParagraphEnd(lines, 3) == 3;
    assert lines[3..3] == [];
    assert Step(lines, 2, style) == ([Para("line2")], 3);
    BodyUnfold(lines, 2, style);
  }

  /** Lines that start with `#` or `-` but match no branch emit nothing:
      a level-4 heading, a rule, the title line itself. */
  lemma UnmatchedMarkersEmitNothing(style: CodeStyle)
    ensures Body(["#### x", "---", "# Title"], 0, style) == []
  {
    var lines := ["#### x", "---", "# Title"];
    StripClean(lines[0]);
    StripClean(lines[1]);
    StripClean(lines[2]);
    assert lines[0][..1] == "#" && lines[0][..3] == "###" && lines[0][..4] == "####";
    assert lines[1][..1] == "-" && lines[1][..2] == "--";
    assert lines[2][..1] == "#" && lines[2][..3] == "# T";
    assert SingleLineElements(lines[0]) == [];
    assert SingleLineElements(lines[1]) == [];
    assert SingleLineElements(lines[2]) == [];
    SingleLinesMapOneByOne(lines, 0, style);
    assert lines[0..] == lines;
    assert lines[1..] == [lines[1], lines[2]] && lines[1..][1..] == [lines[2]];
  }

  /** `## ` and `### ` give level-1 and level-2 headings from the text after
      the marker; `- ` gives a bullet. */
  lemma HeadingsAndBulletExample(style: CodeStyle)
    ensures Body(["## A", "### B", "- c"], 0, style)
            == [Heading(1, "A", Some(16), Some(Rgb(0, 0, 128)), false),
                Heading(2, "B", Some(14), Some(Rgb(0, 0, 100)), false),
                Bullet("c")]
  {
    var lines := ["## A", "### B", "- c"];
    StripClean(lines[0]);
    StripClean(lines[1]);
    StripClean(lines[2]);
    assert lines[0][..1] == "#" && lines[0][..3] == "## " && lines[0][3..] == "A";
    assert lines[1][..1] == "#" && lines[1][..3] == "###" && lines[1][..4] == "### " && lines[1][4..] == "B";
    assert lines[2][..1] == "-" && lines[2][..2] == "- " && lines[2][2..] == "c";
    assert SingleLineElements(lines[0]) == [BodyHeading(H2, "A")];
    assert SingleLineElements(lines[1]) == [BodyHeading(H3, "B")];
    assert SingleLineElements(lines[2]) == [Bullet("c")];
    SingleLinesMapOneByOne(lines, 0, style);
    assert lines[0..] == lines;
    assert lines[1..] == [lines[1], lines[2]] && lines[1..][1..] == [lines[2]];
  }
}
