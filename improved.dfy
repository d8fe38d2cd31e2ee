/** convert_to_docx_improved.py: the title, a "Table des matières" heading
    with no table under it, then the scanned body with plain code paragraphs.
    The script also defines a code-block cleaner that drops one blank line at
    each end of a block; the scan never calls it. */
module Improved {
  import opened Wrappers
  import opened Strings
  import opened Docx
  import opened Scanner

  /** `not line.strip()`. */
  predicate IsBlankLine(line: string) {
    Strip(line) == ""
  }

  /** Drops the first line if it is blank, then the last remaining line if it
      is blank: the result is the run of lines that starts after at most one
      line and ends before at most one, and nothing else goes. */
  function TrimEdges(lines: seq<string>): (r: seq<string>)
    ensures var lo := if lines != [] && IsBlankLine(lines[0]) then 1 else 0;
            var hi := if lo < |lines| && IsBlankLine(lines[|lines| - 1]) then 1 else 0;
            |r| == |lines| - lo - hi && r == lines[lo..lo + |r|]
  {
    var front := if lines != [] && IsBlankLine(lines[0]) then lines[1..] else lines;
    if front != [] && IsBlankLine(front[|front| - 1]) then front[..|front| - 1] else front
  }

  /** The line-trimming part of `process_code_block`, on text that is already
      unescaped. */
  function CleanCodeBlock(codeText: string): string {
    Join(TrimEdges(Split(codeText, '\n')), "\n")
  }

  /** The cleaned text is made of the kept lines: splitting it again gives the
      trimmed lines back (unless none is left), so at most two lines are lost
      and every line in between is kept verbatim. */
  lemma CleanCodeBlockLines(codeText: string)
    ensures var parts := Split(codeText, '\n');
            var kept := TrimEdges(parts);
            kept != [] ==> Split(CleanCodeBlock(codeText), '\n') == kept
  {
    var parts := Split(codeText, '\n');
    var kept := TrimEdges(parts);
    if kept != [] {
      forall k | 0 <= k < |kept| ensures '\n' !in kept[k] {
        assert kept[k] in parts;
      }
      SplitJoin(kept, '\n');
    }
  }

  /** A block without a blank first or last line comes out unchanged. */
  lemma CleanCodeBlockKeepsTrimmedText(codeText: string)
    requires var parts := Split(codeText, '\n');
             !IsBlankLine(parts[0]) && !IsBlankLine(parts[|parts| - 1])
    ensures CleanCodeBlock(codeText) == codeText
  {
    var parts := Split(codeText, '\n');
    assert TrimEdges(parts) == parts[0..|parts|];
    assert parts[0..|parts|] == parts;
    JoinSplit(codeText, '\n');
  }

  /** A single blank line cleans to the empty text. */
  lemma BlankLineCleansToEmpty(line: string)
    requires '\n' !in line && IsBlankLine(line)
    ensures CleanCodeBlock(line) == ""
  {
    SplitNoSeparator(line, '\n');
  }

  /** Since `TrimEdges` takes at most one blank line off each end, a block
      with two leading blank lines keeps one, and cleaning it again removes
      that one too: the cleaner is not idempotent. */
  lemma CleanCodeBlockTrimsOnce()
    ensures CleanCodeBlock("\n\nx") == "\nx"
    ensures CleanCodeBlock("\nx") == "x"
  {
    StripClean("");
    StripClean("x");
    SplitAfterFirstSeparator("", '\n', "\nx");
    SplitAfterFirstSeparator("", '\n', "x");
    SplitNoSeparator("x", '\n');
    assert "\n\nx" == "" + ['\n'] + "\nx";
    assert "\nx" == "" + ['\n'] + "x";
    assert Split("\n\nx", '\n') == ["", "", "x"];
    assert TrimEdges(["", "", "x"]) == ["", "x"];
    assert Join(["", "x"], "\n") == "" + "\n" + Join(["x"], "\n");
    assert Split("\nx", '\n') == ["", "x"];
    assert TrimEdges(["", "x"]) == ["x"];
  }

  /** The heading under the title; the script never writes a table under it. */
  const TocHeadingText := "Table des matières"

  function FrontMatter(title: Option<string>): seq<Element> {
    TitleElements(title) + [CentredHeading(1, TocHeadingText), Blank]
  }

  /** The whole document produced for a markdown text. */
  function Converted(markdown: string): seq<Element> {
    var lines := Split(markdown, '\n');
    FrontMatter(TitleOf(lines)) + Body(lines, 0, Plain)
  }

  /** The script from reading the text to the last body element. */
  method Convert(markdown: string) returns (doc: Document)
    ensures fresh(doc)
    ensures doc.elements == Converted(markdown)
  {
    var lines := Split(markdown, '\n');
    doc := new Document();
    var title := FindTitle(lines);
    AddTitle(doc, title);
    assert doc.elements == TitleElements(title);
    doc.Add(CentredHeading(1, TocHeadingText));
    doc.Add(Blank);
    assert doc.elements == FrontMatter(title);
    ScanBody(doc, lines, Plain);
  }

  /** No page break and no table-of-contents content: after the title and the
      heading come the body elements only. */
  lemma NoTableOfContents(markdown: string)
    ensures var d := Converted(markdown);
            var t := |TitleElements(TitleOf(Split(markdown, '\n')))|;
            |d| >= t + 2 && d[t] == CentredHeading(1, TocHeadingText)
            && forall k :: t + 1 <= k < |d| ==> IsBodyElement(d[k])
  {
    var lines := Split(markdown, '\n');
    var fm := FrontMatter(TitleOf(lines));
    var body := Body(lines, 0, Plain);
    var d := fm + body;
    BodyElementsAreContent(lines, 0, Plain);
    forall k | |fm| <= k < |d| ensures IsBodyElement(d[k]) {
      assert d[k] == body[k - |fm|];
    }
  }

  /** The scan does not clean code blocks: a blank first line stays in the
      code paragraph. */
  lemma CodeBlockNotCleaned()
    ensures Body(["```", "", "x", "```"], 0, Plain) == [CodeParagraph("\nx", Plain), Blank]
    ensures CleanCodeBlock("\nx") == "x"
  {
    CleanCodeBlockTrimsOnce();
    var lines := ["```", "", "x", "```"];
    BlankFirstLineStep(lines);
    BodyUnfold(lines, 0, Plain);
  }

  /** The scan's step over the example block: the code keeps its blank first line. */
  lemma BlankFirstLineStep(lines: seq<string>)
    requires lines == ["```", "", "x", "```"]
    ensures Step(lines, 0, Plain) == ([CodeParagraph("\nx", Plain), Blank], 4)
  {
    StripClean("```");
    FenceIsNotHeadingOrBullet(lines[0]);
    assert !StartsWith(lines[1], Fence) && !StartsWith(lines[2], Fence) && StartsWith(lines[3], Fence);
    assert FenceEnd(lines, 1) == 3;
    assert lines[1..3] == ["", "x"];
    assert Join(["", "x"], "\n") == "\nx" by {
      assert Join(["", "x"], "\n") == "" + "\n" + Join(["x"], "\n");
    }
  }
}
