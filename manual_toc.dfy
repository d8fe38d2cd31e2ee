/** create_manual_toc.py: the same cover page as the TOC-field converter, then a
    table of contents written out as paragraphs (title, 50 dot runs and a
    placeholder page number), then the scanned body with shaded code. */
module ManualToc {
  import opened Wrappers
  import opened Strings
  import opened Docx
  import opened Scanner
  import opened Seqs

  type TocHeading = (Depth, string)

  /** The TOC contribution of one raw line: a line starting with `## ` or
      `### ` gives its depth and the stripped text after the marker. The raw
      line is tested, so an indented heading is not listed, and a heading
      inside a code fence is. */
  function HeadingOfLine(line: string): seq<TocHeading> {
    if StartsWith(line, "## ") then [(H2, Strip(line[3..]))]
    else if StartsWith(line, "### ") then [(H3, Strip(line[4..]))]
    else []
  }

  /** The headings listed in the table of contents, in line order. */
  function TocHeadings(lines: seq<string>): seq<TocHeading> {
    EachLine(lines, HeadingOfLine)
  }

  /** The extraction loop over all lines of the text. */
  method ExtractHeadings(lines: seq<string>) returns (headings: seq<TocHeading>)
    ensures headings == TocHeadings(lines)
  {
    headings := [];
    var k := 0;
    while k < |lines|
      invariant 0 <= k <= |lines|
      invariant headings == TocHeadings(lines[..k])
    {
      var line := lines[k];
      if StartsWith(line, "## ") {
        headings := headings + [(H2, Strip(line[3..]))];
      } else if StartsWith(line, "### ") {
        headings := headings + [(H3, Strip(line[4..]))];
      }
      EachLinePrefix(lines, k, HeadingOfLine);
      k := k + 1;
    }
    assert lines[..k] == lines;
  }

  /** Extraction works line by line: the headings of a concatenation are the
      headings of each part, in order. */
  lemma TocHeadingsAppend(a: seq<string>, b: seq<string>)
    ensures TocHeadings(a + b) == TocHeadings(a) + TocHeadings(b)
  {
    EachLineAppend(a, b, HeadingOfLine);
  }

  /** Each line contributes its own heading at its own position: the listed
      headings are those of the lines before it, then its own, then those of
      the lines after it. */
  lemma TocHeadingsAt(lines: seq<string>, n: nat)
    requires n < |lines|
    ensures TocHeadings(lines) == TocHeadings(lines[..n]) + HeadingOfLine(lines[n]) + TocHeadings(lines[n + 1..])
  {
    EachLineAt(lines, n, HeadingOfLine);
  }

  /** The left indent of a TOC paragraph, in quarter inches. */
  function Indent(d: Depth): nat {
    match d
    case H2 => 1
    case H3 => 2
  }

  function TocStyle(d: Depth): string {
    match d
    case H2 => "TOC 1"
    case H3 => "TOC 2"
  }

  /** The run holding the heading text: bold 12pt at depth H2, 11pt at H3. */
  function TitleRun(d: Depth, title: string): TextRun {
    match d
    case H2 => TextRun(title, true, Some(12))
    case H3 => TextRun(title, false, Some(11))
  }

  const DotCount := 50
  const DotRun := TextRun(".", false, None)
  /** The placeholder page number: the field never holds a real one. */
  const PageRun := TextRun(" X", false, None)

  /** The TOC paragraph of one heading. */
  function TocEntryOf(d: Depth, title: string): Element {
    TocEntry(TocStyle(d), Indent(d), [TitleRun(d, title)] + Dots(DotCount) + [PageRun])
  }

  /** A TOC paragraph holds the heading text first, then exactly 50 dots, then
      the placeholder page number, and nothing else. */
  lemma TocEntryRuns(d: Depth, title: string)
    ensures var e := TocEntryOf(d, title);
            |e.runs| == DotCount + 2 && e.runs[0] == TitleRun(d, title)
            && (forall k :: 1 <= k <= DotCount ==> e.runs[k] == DotRun)
            && e.runs[DotCount + 1] == PageRun
  {
  }

  /** `n` dot runs. */
  function Dots(n: nat): seq<TextRun> {
    seq(n, _ => DotRun)
  }

  /** One iteration of the TOC loop: a paragraph, its title run, 50 dot runs
      added one at a time, and the page-number run. */
  method RenderTocEntry(d: Depth, title: string) returns (e: Element)
    ensures e == TocEntryOf(d, title)
  {
    var runs := [TitleRun(d, title)];
    var n := 0;
    while n < DotCount
      invariant 0 <= n <= DotCount
      invariant runs == [TitleRun(d, title)] + Dots(n)
    {
      assert Dots(n + 1) == Dots(n) + [DotRun];
      runs := runs + [DotRun];
      n := n + 1;
    }
    runs := runs + [PageRun];
    e := TocEntry(TocStyle(d), Indent(d), runs);
  }

  /** The table of contents: one entry per extracted heading, same order. */
  function TocEntries(hs: seq<TocHeading>): seq<Element> {
    if hs == [] then [] else TocEntries(hs[..|hs| - 1]) + [TocEntryOf(hs[|hs| - 1].0, hs[|hs| - 1].1)]
  }

  /** The k-th entry renders the k-th heading. */
  lemma {:induction false} TocEntriesAt(hs: seq<TocHeading>)
    ensures |TocEntries(hs)| == |hs|
    ensures forall k :: 0 <= k < |hs| ==> TocEntries(hs)[k] == TocEntryOf(hs[k].0, hs[k].1)
  {
    if hs != [] {
      TocEntriesAt(hs[..|hs| - 1]);
    }
  }

  /** The TOC loop: one rendered entry per heading, appended in order. */
  method WriteToc(doc: Document, headings: seq<TocHeading>)
    modifies doc
    ensures doc.elements == old(doc.elements) + TocEntries(headings)
  {
    var k := 0;
    while k < |headings|
      invariant 0 <= k <= |headings|
      invariant doc.elements == old(doc.elements) + TocEntries(headings[..k])
    {
      var entry := RenderTocEntry(headings[k].0, headings[k].1);
      doc.Add(entry);
      assert headings[..k + 1][..k] == headings[..k];
      k := k + 1;
    }
    assert headings[..k] == headings;
  }

  /** The title, the cover page and the heading of the TOC page. */
  function Cover(title: Option<string>): seq<Element> {
    TitleElements(title) + CoverPage + [CentredHeading(1, "Sommaire"), Blank]
  }

  /** The whole document produced for a markdown text. */
  function Converted(markdown: string): seq<Element> {
    var lines := Split(markdown, '\n');
    Cover(TitleOf(lines)) + TocEntries(TocHeadings(lines)) + [PageBreak] + Body(lines, 0, Shaded)
  }

  /** The script from reading the text to the last body element. */
  method Convert(markdown: string) returns (doc: Document)
    ensures fresh(doc)
    ensures doc.elements == Converted(markdown)
  {
    var lines := Split(markdown, '\n');
    var headings := ExtractHeadings(lines);
    doc := new Document();
    var title := FindTitle(lines);
    AddTitle(doc, title);
    assert doc.elements == TitleElements(title);
    AddCoverPage(doc);
    doc.Add(CentredHeading(1, "Sommaire"));
    doc.Add(Blank);
    assert doc.elements == Cover(title);
    WriteToc(doc, headings);
    doc.Add(PageBreak);
    assert doc.elements == Cover(title) + TocEntries(headings) + [PageBreak];
    ScanBody(doc, lines, Shaded);
  }

  /** The layout of a converted document `d` whose title takes `t` elements
      and whose table of contents lists `hs`: the cover ends at the first page
      break, the table of contents follows the "Sommaire" heading, the second
      page break closes it, and everything after it is body content. These
      are the only two page breaks. */
  ghost predicate LaidOut(d: seq<Element>, t: nat, hs: seq<TocHeading>) {
    var n := t + 7;
    |d| > n + |hs|
    && d[t + 5] == CentredHeading(1, "Sommaire")
    && d[n..n + |hs|] == TocEntries(hs)
    && (forall k :: 0 <= k < |d| ==> (d[k] == PageBreak <==> k == t + 4 || k == n + |hs|))
    && (forall k :: n + |hs| < k < |d| ==> IsBodyElement(d[k]))
  }

  lemma DocumentLayout(markdown: string)
    ensures var lines := Split(markdown, '\n');
            LaidOut(Converted(markdown), |TitleElements(TitleOf(lines))|, TocHeadings(lines))
  {
    var lines := Split(markdown, '\n');
    var title, hs, body := TitleOf(lines), TocHeadings(lines), Body(lines, 0, Shaded);
    BodyElementsAreContent(lines, 0, Shaded);
    Layout(title, hs, body);
    assert Converted(markdown) == Cover(title) + TocEntries(hs) + [PageBreak] + body;
  }

  lemma Layout(title: Option<string>, hs: seq<TocHeading>, body: seq<Element>)
    requires forall k :: 0 <= k < |body| ==> IsBodyElement(body[k])
    ensures LaidOut(Cover(title) + TocEntries(hs) + [PageBreak] + body, |TitleElements(title)|, hs)
  {
    var cover := Cover(title);
    var entries := TocEntries(hs);
    var d := cover + entries + [PageBreak] + body;
    TocEntriesAt(hs);
    CoverLayout(title);
    assert d[|cover|..|cover| + |hs|] == entries;
    AfterCover(cover, entries, body);
    forall k | 0 <= k < |cover| ensures d[k] == cover[k] {
    }
  }

  /** The cover holds one page break, after the subtitles. */
  lemma CoverLayout(title: Option<string>)
    ensures var c := Cover(title); var t := |TitleElements(title)|;
            |c| == t + 7 && c[t + 5] == CentredHeading(1, "Sommaire")
            && forall k :: 0 <= k < |c| ==> (c[k] == PageBreak <==> k == t + 4)
  {
  }

  /** Past the cover, the only page break is the one that closes the table. */
  lemma AfterCover(cover: seq<Element>, entries: seq<Element>, body: seq<Element>)
    requires forall k :: 0 <= k < |entries| ==> entries[k].TocEntry?
    requires forall k :: 0 <= k < |body| ==> IsBodyElement(body[k])
    ensures var d := cover + entries + [PageBreak] + body;
            (forall k :: |cover| <= k < |d| ==> (d[k] == PageBreak <==> k == |cover| + |entries|))
            && (forall k :: |cover| + |entries| < k < |d| ==> IsBodyElement(d[k]))
  {
    var d := cover + entries + [PageBreak] + body;
    forall k | |cover| <= k < |d| ensures d[k] == PageBreak <==> k == |cover| + |entries| {
      if k < |cover| + |entries| {
        assert d[k] == entries[k - |cover|];
      } else if k > |cover| + |entries| {
        assert d[k] == body[k - |cover| - |entries| - 1];
      }
    }
    forall k | |cover| + |entries| < k < |d| ensures IsBodyElement(d[k]) {
      assert d[k] == body[k - |cover| - |entries| - 1];
    }
  }

  // ---------------------------------------------------------------- examples

  /** The TOC keeps the headings' order and their depths. */
  lemma EntriesFollowHeadings()
    ensures var es := TocEntries([(H2, "A"), (H3, "B"), (H2, "C")]);
            var page := [TextRun(" X", false, None)];
            es == [TocEntry("TOC 1", 1, [TextRun("A", true, Some(12))] + Dots(50) + page),
                   TocEntry("TOC 2", 2, [TextRun("B", false, Some(11))] + Dots(50) + page),
                   TocEntry("TOC 1", 1, [TextRun("C", true, Some(12))] + Dots(50) + page)]
  {
    var hs := [(H2, "A"), (H3, "B"), (H2, "C")];
    TocEntriesAt(hs);
    var es := TocEntries(hs);
    assert es[0] == TocEntryOf(H2, "A") && es[1] == TocEntryOf(H3, "B") && es[2] == TocEntryOf(H2, "C");
  }

  /** A `## ` line inside a code fence is listed in the table of contents, but
      the body shows it as code and has no such heading. */
  lemma FencedHeadingListedButNotInBody()
    ensures TocHeadings(["```", "## a", "```"]) == [(H2, "a")]
    ensures Body(["```", "## a", "```"], 0, Shaded) == [CodeParagraph("## a", Shaded), Blank]
  {
    FencedHeadingListed();
    FencedHeadingNotInBody();
  }

  lemma FencedHeadingListed()
    ensures TocHeadings(["```", "## a", "```"]) == [(H2, "a")]
  {
    var lines := ["```", "## a", "```"];
    assert lines[1][..3] == "## " && lines[1][3..] == "a";
    StripClean("a");
    assert lines[0][..3] == "```" && !StartsWith(lines[0], "## ") && !StartsWith(lines[0], "### ");
    assert HeadingOfLine(lines[0]) == [] && HeadingOfLine(lines[2]) == [];
    TocHeadingsAt(lines, 1);
    EachLineSnoc([], lines[0], HeadingOfLine);
    EachLineSnoc([], lines[2], HeadingOfLine);
    assert [] + [lines[0]] == lines[..1] && [] + [lines[2]] == lines[2..];
  }

  lemma FencedHeadingNotInBody()
    ensures Body(["```", "## a", "```"], 0, Shaded) == [CodeParagraph("## a", Shaded), Blank]
  {
    var lines := ["```", "## a", "```"];
    StripClean("```");
    FenceIsNotHeadingOrBullet(lines[0]);
    assert !StartsWith(lines[1], Fence) && StartsWith(lines[2], Fence);
    assert FenceEnd(lines, 1) == 2;
    assert lines[1..2] == ["## a"];
    assert Step(lines, 0, Shaded) == ([CodeParagraph("## a", Shaded), Blank], 3);
    BodyUnfold(lines, 0, Shaded);
  }

  /** An indented `## ` line is a heading of the body (the scanner strips the
      line first), but it is not listed in the table of contents. */
  lemma IndentedHeadingInBodyButNotListed()
    ensures TocHeadings([" ## b"]) == []
    ensures Body([" ## b"], 0, Shaded) == [BodyHeading(H2, "b")]
  {
    var lines := [" ## b"];
    assert lines[..0] == [];
    assert lines[0][..3] == " ##" && lines[0][..4] == " ## ";
    assert lines[0] == [' '] + "## b";
    StripLeadingSpace(' ', "## b");
    StripClean("## b");
    assert "## b"[..3] == "## " && "## b"[3..] == "b";
    assert SingleLineElements(Strip(lines[0])) == [BodyHeading(H2, "b")];
    SingleLinesMapOneByOne(lines, 0, Shaded);
    assert lines[0..] == lines && lines[1..] == [];
  }

  /** The TOC strips the heading text; the body keeps the inner spaces after
      the marker. */
  lemma TocTextIsStripped()
    ensures TocHeadings(["##  a"]) == [(H2, "a")]
    ensures Body(["##  a"], 0, Shaded) == [BodyHeading(H2, " a")]
  {
    var lines := ["##  a"];
    assert lines[..0] == [];
    assert lines[0][..3] == "## " && lines[0][3..] == " a";
    assert " a" == [' '] + "a";
    StripLeadingSpace(' ', "a");
    StripClean("a");
    StripClean("##  a");
    assert SingleLineElements(Strip(lines[0])) == [BodyHeading(H2, " a")];
    SingleLinesMapOneByOne(lines, 0, Shaded);
    assert lines[0..] == lines && lines[1..] == [];
  }
}
