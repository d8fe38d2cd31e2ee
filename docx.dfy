/** The Word document the scripts build, seen as an abstract sink: every
    python-docx `add_heading`, `add_paragraph` or `add_page_break` call appends
    one element, and nothing is ever removed or reordered. Styles, fonts and
    colours are plain fields of the element records. */
module Docx {
  import opened Wrappers

  datatype Rgb = Rgb(red: nat, green: nat, blue: nat)

  /** The two markup heading depths the scanners recognise: `## ` and `### `
      (or `<h2>` and `<h3>`). */
  datatype Depth = H2 | H3

  /** Word heading level used for each depth. */
  function Level(d: Depth): nat {
    match d
    case H2 => 1
    case H3 => 2
  }

  /** The fixed per-level style table: 16pt navy (0, 0, 128) for level 1,
      14pt (0, 0, 100) for level 2. */
  function HeadingSize(d: Depth): nat {
    match d
    case H2 => 16
    case H3 => 14
  }

  function HeadingColour(d: Depth): Rgb {
    match d
    case H2 => Rgb(0, 0, 128)
    case H3 => Rgb(0, 0, 100)
  }

  /** The three `w:fldCharType` values of a Word complex field. */
  datatype FieldCharKind = Begin | Separate | End

  /** One child of the run that holds a Word field. */
  datatype FieldItem = FldChar(kind: FieldCharKind) | InstrText(instruction: string)

  /** A text run: its text, whether it is explicitly bold, and its explicit
      point size (None when the run inherits it). */
  datatype TextRun = TextRun(text: string, bold: bool, size: Option<nat>)

  datatype Element =
    | Heading(level: nat, text: string, size: Option<nat>, rgb: Option<Rgb>, centred: bool)
    | Bullet(text: string)
    | Para(text: string)
    | Code(text: string, font: string, fontSize: nat, rgb: Option<Rgb>, shading: Option<string>)
    | Blank
    | PageBreak
    | Subtitle(text: string)
    | TocField(items: seq<FieldItem>)
    | TocEntry(style: string, indent: nat, runs: seq<TextRun>)

  /** A heading of the document body, styled from the level table. */
  function BodyHeading(d: Depth, text: string): Element {
    Heading(Level(d), text, Some(HeadingSize(d)), Some(HeadingColour(d)), false)
  }

  /** A centred heading whose style is left untouched: the document title
      (level 0) or the heading of a table of contents (level 1). */
  function CentredHeading(level: nat, text: string): Element {
    Heading(level, text, None, None, true)
  }

  /** `doc.add_paragraph(style='Subtitle')` texts of the cover page. */
  const CoverSubtitle := "Document d'Architecture Technique"
  const CoverDate := "Date: Mai 2025"

  class Document {
    var elements: seq<Element>

    constructor ()
      ensures elements == []
    {
      elements := [];
    }

    /** One `add_*` call: the new element goes to the end. */
    method Add(e: Element)
      modifies this
      ensures elements == old(elements) + [e]
    {
      elements := elements + [e];
    }
  }

  /** The cover page both TOC converters write after the title: an empty
      paragraph, the two subtitles, another empty paragraph, a page break. */
  const CoverPage := [Blank, Subtitle(CoverSubtitle), Subtitle(CoverDate), Blank, PageBreak]

  method AddCoverPage(doc: Document)
    modifies doc
    ensures doc.elements == old(doc.elements) + CoverPage
  {
    doc.Add(Blank);
    doc.Add(Subtitle(CoverSubtitle));
    doc.Add(Subtitle(CoverDate));
    doc.Add(Blank);
    doc.Add(PageBreak);
  }
}
