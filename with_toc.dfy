/** convert_with_toc.py: the title, a cover page, a "Sommaire" page holding a
    Word TOC field that Word fills in, then the scanned body with shaded code. */
module WithToc {
  import opened Wrappers
  import opened Strings
  import opened Docx
  import opened Scanner
  import opened Seqs

  /** The field instruction: outline levels 1-3, hyperlinked entries, page
      numbers hidden in web layout, outline levels of paragraphs used. */
  const TocInstruction := "TOC \\o \"1-3\" \\h \\z \\u"

  /** The children of the field's run, in the order `add_toc_field` appends them. */
  const FieldRun := [FldChar(Begin), InstrText(TocInstruction), FldChar(Separate), FldChar(End)]

  /** `add_toc_field`: appends the four children to a fresh run one by one. */
  method AddTocField() returns (run: seq<FieldItem>)
    ensures |run| == 4
    ensures run[0] == FldChar(Begin) && run[1] == InstrText(TocInstruction)
    ensures run[2] == FldChar(Separate) && run[3] == FldChar(End)
  {
    run := [];
    run := run + [FldChar(Begin)];
    run := run + [InstrText(TocInstruction)];
    run := run + [FldChar(Separate)];
    run := run + [FldChar(End)];
  }

  /** The "Sommaire" page: its centred heading, the paragraph holding the
      field, a page break. */
  const TocPage := [CentredHeading(1, "Sommaire"), TocField(FieldRun), PageBreak]

  /** Everything the script adds before the body. */
  function FrontMatter(title: Option<string>): seq<Element> {
    TitleElements(title) + CoverPage + TocPage
  }

  /** The whole document produced for a markdown text. */
  function Converted(markdown: string): seq<Element> {
    var lines := Split(markdown, '\n');
    FrontMatter(TitleOf(lines)) + Body(lines, 0, Shaded)
  }

  /** The script from reading the text to the last body element. */
  method Convert(markdown: string) returns (doc: Document)
    ensures fresh(doc)
    ensures doc.elements == Converted(markdown)
  {
    var lines := Split(markdown, '\n');
    doc := new Document();
    var title := FindTitle(lines);
    AddTitle(doc, title);
    assert doc.elements == TitleElements(title);
    AddCoverPage(doc);
    AddTocPage(doc);
    assert doc.elements == FrontMatter(title);
    ScanBody(doc, lines, Shaded);
  }

  method AddTocPage(doc: Document)
    modifies doc
    ensures doc.elements == old(doc.elements) + TocPage
  {
    doc.Add(CentredHeading(1, "Sommaire"));
    var run := AddTocField();
    assert run == FieldRun;
    doc.Add(TocField(run));
    doc.Add(PageBreak);
  }

  /** The front matter comes first and in a fixed order: the document has
      exactly two page breaks, the cover ends at the first, the TOC field page
      at the second, and everything after the second is body content. */
  ghost predicate LaidOut(d: seq<Element>, t: nat) {
    |d| >= t + 8
    && d[t + 5] == CentredHeading(1, "Sommaire") && d[t + 6] == TocField(FieldRun)
    && (forall k :: 0 <= k < |d| ==> (d[k] == PageBreak <==> k == t + 4 || k == t + 7))
    && (forall k :: t + 8 <= k < |d| ==> IsBodyElement(d[k]))
  }

  lemma FrontMatterPrecedesBody(markdown: string)
    ensures var lines := Split(markdown, '\n');
            LaidOut(Converted(markdown), |TitleElements(TitleOf(lines))|)
  {
    var lines := Split(markdown, '\n');
    var body := Body(lines, 0, Shaded);
    BodyElementsAreContent(lines, 0, Shaded);
    forall k | 0 <= k < |body| ensures IsBodyElement(body[k]) {
      assert body[k] in body;
    }
    Layout(TitleOf(lines), body);
  }

  /** The layout holds for any title and any body made of content elements. */
  lemma Layout(title: Option<string>, body: seq<Element>)
    requires forall k :: 0 <= k < |body| ==> IsBodyElement(body[k])
    ensures LaidOut(FrontMatter(title) + body, |TitleElements(title)|)
  {
    var fm := FrontMatter(title);
    var t := |TitleElements(title)|;
    var d := fm + body;
    assert |fm| == t + 8;
    forall k | 0 <= k < |d| ensures d[k] == PageBreak <==> k == t + 4 || k == t + 7 {
      if k < |fm| {
        assert d[k] == fm[k];
      } else {
        assert d[k] == body[k - |fm|];
      }
    }
    forall k | t + 8 <= k < |d| ensures IsBodyElement(d[k]) {
      assert d[k] == body[k - |fm|];
    }
  }
}
