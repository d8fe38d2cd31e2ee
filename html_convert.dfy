/** convert_to_docx.py: the markdown text is first rendered to HTML by a
    library; from that HTML the script takes the first `<h1>` as the title and
    then tries each line against the h2, h3, p, ul and code patterns, in that
    order, emitting for the first that matches. */
module HtmlConvert {
  import opened Wrappers
  import opened Strings
  import opened Docx
  import opened Regex
  import opened Entities
  import opened Seqs
  import Scanner

  const TitlePattern := Pattern("<h1>", "</h1>", false)
  const H2Pattern := Pattern("<h2>", "</h2>", false)
  const H3Pattern := Pattern("<h3>", "</h3>", false)
  const ParaPattern := Pattern("<p>", "</p>", true)
  const ListPattern := Pattern("<ul>", "</ul>", true)
  const ItemPattern := Pattern("<li>", "</li>", false)
  const CodePattern := Pattern("<pre><code>", "</code></pre>", true)

  /** The title: the first `findall` result of the `<h1>` pattern over the
      whole HTML, kept even when empty. */
  function HtmlTitle(html: string): Option<string> {
    var matches := FindAll(html, TitlePattern);
    if matches != [] then Some(matches[0]) else None
  }

  function TitleElements(html: string): seq<Element> {
    match HtmlTitle(html)
    case Some(t) => [CentredHeading(0, t)]
    case None => []
  }

  /** The title is the group of the leftmost `<h1>...</h1>` on one line. */
  lemma TitleIsFirstMatch(html: string)
    ensures HtmlTitle(html) == SearchGroup(html, TitlePattern)
    ensures HtmlTitle(html).Some? ==> '\n' !in HtmlTitle(html).value
  {
    FindAllFirst(html, TitlePattern);
    if HtmlTitle(html).Some? {
      SearchGroupOneLine(html, TitlePattern);
    }
  }

  /** One bullet per list item, in order. */
  function Bullets(items: seq<string>): (r: seq<Element>)
    ensures |r| == |items| && forall k :: 0 <= k < |items| ==> r[k] == Bullet(items[k])
  {
    if items == [] then [] else [Bullet(items[0])] + Bullets(items[1..])
  }

  /** What one HTML line emits: the first of h2, h3, p, ul and code that
      matches decides; a line matching none emits nothing. */
  function LineElements(line: string): seq<Element> {
    match SearchGroup(line, H2Pattern)
    case Some(h) => [BodyHeading(H2, h)]
    case None =>
      match SearchGroup(line, H3Pattern)
      case Some(h) => [BodyHeading(H3, h)]
      case None =>
        match SearchGroup(line, ParaPattern)
        case Some(text) => [Para(text)]
        case None =>
          match SearchGroup(line, ListPattern)
          case Some(items) => Bullets(FindAll(items, ItemPattern))
          case None =>
            match SearchGroup(line, CodePattern)
            case Some(code) => [Scanner.CodeParagraph(Unescape(code), Scanner.Plain), Blank]
            case None => []
  }

  function HtmlBody(lines: seq<string>): seq<Element> {
    EachLine(lines, LineElements)
  }

  /** Lines are handled independently: the output for a concatenation is the
      output for each part, in order. */
  lemma HtmlBodyAppend(a: seq<string>, b: seq<string>)
    ensures HtmlBody(a + b) == HtmlBody(a) + HtmlBody(b)
  {
    EachLineAppend(a, b, LineElements);
  }

  function Converted(html: string): seq<Element> {
    TitleElements(html) + HtmlBody(Split(html, '\n'))
  }

  /** The loop over the items of a list line. */
  method AddBullets(doc: Document, items: seq<string>)
    modifies doc
    ensures doc.elements == old(doc.elements) + Bullets(items)
  {
    var k := 0;
    while k < |items|
      invariant 0 <= k <= |items|
      invariant doc.elements == old(doc.elements) + Bullets(items[..k])
    {
      doc.Add(Bullet(items[k]));
      BulletsSnoc(items[..k], items[k]);
      assert items[..k + 1] == items[..k] + [items[k]];
      k := k + 1;
    }
    assert items[..k] == items;
  }

  lemma BulletsSnoc(items: seq<string>, item: string)
    ensures Bullets(items + [item]) == Bullets(items) + [Bullet(item)]
  {
    var r := Bullets(items + [item]);
    assert |r| == |Bullets(items) + [Bullet(item)]|;
    forall k | 0 <= k < |r| ensures r[k] == (Bullets(items) + [Bullet(item)])[k] {
      assert (items + [item])[k] == (if k < |items| then items[k] else item);
    }
  }

  /** One pass of the dispatch loop: the first pattern that matches emits
      and ends the pass (the script's `continue`). The extra `i < len(lines)`
      test on the code branch always holds inside the loop. */
  method EmitLine(doc: Document, line: string)
    modifies doc
    ensures doc.elements == old(doc.elements) + LineElements(line)
  {
    var h2Match := SearchGroup(line, H2Pattern);
    if h2Match.Some? {
      doc.Add(BodyHeading(H2, h2Match.value));
      return;
    }
    var h3Match := SearchGroup(line, H3Pattern);
    if h3Match.Some? {
      doc.Add(BodyHeading(H3, h3Match.value));
      return;
    }
    var pMatch := SearchGroup(line, ParaPattern);
    if pMatch.Some? {
      doc.Add(Para(pMatch.value));
      return;
    }
    var ulMatch := SearchGroup(line, ListPattern);
    if ulMatch.Some? {
      var items := FindAll(ulMatch.value, ItemPattern);
      AddBullets(doc, items);
      return;
    }
    var codeMatch := SearchGroup(line, CodePattern);
    if codeMatch.Some? {
      var code := Unescape(codeMatch.value);
      doc.Add(Scanner.CodeParagraph(code, Scanner.Plain));
      doc.Add(Blank);
    }
  }

  /** The dispatch loop over all lines. */
  method ScanLines(doc: Document, lines: seq<string>)
    modifies doc
    ensures doc.elements == old(doc.elements) + HtmlBody(lines)
  {
    var i := 0;
    while i < |lines|
      invariant 0 <= i <= |lines|
      invariant doc.elements == old(doc.elements) + EachLine(lines[..i], LineElements)
    {
      ghost var done := EachLine(lines[..i], LineElements);
      EmitLine(doc, lines[i]);
      EachLinePrefix(lines, i, LineElements);
      AppendAssoc(old(doc.elements), done, LineElements(lines[i]));
      i := i + 1;
    }
    assert lines[..i] == lines;
  }

  /** The script from the HTML text to the last element. */
  method Convert(html: string) returns (doc: Document)
    ensures fresh(doc)
    ensures doc.elements == Converted(html)
  {
    doc := new Document();
    var titleMatches := FindAll(html, TitlePattern);
    if titleMatches != [] {
      doc.Add(CentredHeading(0, titleMatches[0]));
    }
    assert doc.elements == TitleElements(html);
    ScanLines(doc, Split(html, '\n'));
  }

  /** A code paragraph is always followed by a blank one. */
  lemma {:induction false} CodeAlwaysFollowedByBlank(lines: seq<string>)
    ensures Scanner.CodeThenBlank(HtmlBody(lines))
  {
    if lines != [] {
      var init := lines[..|lines| - 1];
      CodeAlwaysFollowedByBlank(init);
      var es := LineElements(lines[|lines| - 1]);
      assert Scanner.CodeThenBlank(es);
      Scanner.CodeThenBlankConcat(HtmlBody(init), es);
    }
  }

  // ---------------------------------------------------------------- examples

  /** The prefixes of the delimiters the dispatch tries, none of which is a
      prefix of another tag used below. */
  lemma OpenPrefixes()
    ensures H2Pattern.open[..3] == "<h2" && H3Pattern.open[..3] == "<h3"
    ensures ParaPattern.open[..3] == "<p>" && ListPattern.open[..3] == "<ul"
    ensures CodePattern.open[..3] == "<pr"
  {
  }

  /** An h2 line gives a level-1 heading with the text between the tags,
      inline tags included, as long as none of them starts like a closing
      heading tag. */
  lemma HeadingLine(x: string, ok: set<string>)
    requires TagPrefixes(x, ok) && "</h" !in ok && '\n' !in x
    ensures LineElements("<h2>" + x + "</h2>") == [BodyHeading(H2, x)]
  {
    var s := "<h2>" + x + "</h2>";
    assert "</h2>"[..3] == "</h";
    LazyCloseBefore(x, "</h2>", "</h2>", false, ok);
    assert s[..4] == "<h2>" && s[4..] == x + "</h2>";
    SearchAtFront(s, H2Pattern, |x|);
    assert s[4..4 + |x|] == x;
  }

  /** An h3 line gives a level-2 heading with the text between the tags,
      inline tags included, as long as none of them starts like an h2 tag,
      which the dispatch tries first, or like a closing heading tag. */
  lemma H3HeadingLine(x: string, ok: set<string>)
    requires TagPrefixes(x, ok) && "</h" !in ok && "<h2" !in ok && '\n' !in x
    ensures LineElements("<h3>" + x + "</h3>") == [BodyHeading(H3, x)]
  {
    var s := "<h3>" + x + "</h3>";
    H3LineNoH2(x, ok);
    assert "</h3>"[..3] == "</h";
    LazyCloseBefore(x, "</h3>", "</h3>", false, ok);
    assert s[..4] == "<h3>" && s[4..] == x + "</h3>";
    SearchAtFront(s, H3Pattern, |x|);
    assert s[4..4 + |x|] == x;
  }

  /** The h2 pattern, tried first, does not match such an h3 line. */
  lemma H3LineNoH2(x: string, ok: set<string>)
    requires TagPrefixes(x, ok) && "<h2" !in ok
    ensures Search("<h3>" + x + "</h3>", H2Pattern) == None
  {
    assert "<h3>"[1..] == "h3>" && "</h3>"[1..] == "/h3>";
    OneTag("<h3>", "<h3");
    OneTag("</h3>", "</h");
    TagPrefixesConcat("<h3>", x, {"<h3"}, ok);
    TagPrefixesConcat("<h3>" + x, "</h3>", {"<h3"} + ok, {"</h"});
    OpenPrefixes();
    NoMatchByPrefixes("<h3>" + x + "</h3>", H2Pattern, {"<h3"} + ok + {"</h"});
  }

  /** A p line gives a paragraph holding the inner HTML verbatim: inline tags
      stay, and entities are not replaced. The inner tags must not start like
      a heading tag, which the dispatch tries first, or like the closing
      paragraph tag. */
  lemma ParagraphVerbatim(x: string, ok: set<string>)
    requires TagPrefixes(x, ok) && "<h2" !in ok && "<h3" !in ok && "</p" !in ok
    ensures LineElements("<p>" + x + "</p>") == [Para(x)]
  {
    var s := "<p>" + x + "</p>";
    assert "<p>"[1..] == "p>" && "</p>"[1..] == "/p>";
    OneTag("<p>", "<p>");
    OneTag("</p>", "</p");
    TagPrefixesConcat("<p>", x, {"<p>"}, ok);
    TagPrefixesConcat("<p>" + x, "</p>", {"<p>"} + ok, {"</p"});
    var all := {"<p>"} + ok + {"</p"};
    OpenPrefixes();
    NoMatchByPrefixes(s, H2Pattern, all);
    NoMatchByPrefixes(s, H3Pattern, all);
    assert "</p>"[..3] == "</p";
    LazyCloseBefore(x, "</p>", "</p>", true, ok);
    assert s[..3] == "<p>" && s[3..] == x + "</p>";
    SearchAtFront(s, ParaPattern, |x|);
    assert s[3..3 + |x|] == x;
  }

  /** The list items of a run of `<li>` elements. */
  function Items(xs: seq<string>): string {
    if xs == [] then "" else "<li>" + xs[0] + "</li>" + Items(xs[1..])
  }

  /** Items on one line whose inline tags all start with a prefix in `ok`. */
  ghost predicate ItemsWith(xs: seq<string>, ok: set<string>) {
    forall k :: 0 <= k < |xs| ==> TagPrefixes(xs[k], ok) && '\n' !in xs[k]
  }

  lemma {:induction false} ItemsPrefixes(xs: seq<string>, ok: set<string>)
    requires ItemsWith(xs, ok)
    ensures TagPrefixes(Items(xs), {"<li", "</l"} + ok)
  {
    if xs == [] {
      TagPrefixesNone("");
      TagPrefixesWeaken("", {}, {"<li", "</l"} + ok);
    } else {
      assert "<li>"[1..] == "li>" && "</li>"[1..] == "/li>";
      OneTag("<li>", "<li");
      OneTag("</li>", "</l");
      ItemsWithTail(xs, ok);
      ItemsPrefixes(xs[1..], ok);
      assert TagPrefixes(xs[0], ok);
      TagPrefixesConcat("<li>", xs[0], {"<li"}, ok);
      TagPrefixesConcat("<li>" + xs[0], "</li>", {"<li"} + ok, {"</l"});
      TagPrefixesConcat("<li>" + xs[0] + "</li>", Items(xs[1..]), {"<li"} + ok + {"</l"}, {"<li", "</l"} + ok);
      TagPrefixesWeaken(Items(xs), {"<li"} + ok + {"</l"} + ({"<li", "</l"} + ok), {"<li", "</l"} + ok);
    }
  }

  /** `findall` of the item pattern gives back every item, in order, inline
      tags included, unless a tag inside an item starts like `</li>`. */
  lemma {:induction false} FindAllItems(xs: seq<string>, ok: set<string>)
    requires ItemsWith(xs, ok) && "</l" !in ok
    ensures FindAll(Items(xs), ItemPattern) == xs
  {
    if xs != [] {
      FirstItem(xs, ok);
      ItemsWithTail(xs, ok);
      FindAllItems(xs[1..], ok);
    }
  }

  /** The search finds the first item, and what is left after its closing
      tag is the run of the other items. */
  lemma FirstItem(xs: seq<string>, ok: set<string>)
    requires xs != [] && ItemsWith(xs, ok) && "</l" !in ok
    ensures var s := Items(xs); var n := |xs[0]|;
            Search(s, ItemPattern) == Some(Span(4, 4 + n))
            && s[4..4 + n] == xs[0] && s[4 + n + 5..] == Items(xs[1..])
  {
    var x, rest := xs[0], Items(xs[1..]);
    var s := Items(xs);
    assert s == "<li>" + x + "</li>" + rest;
    Framed("<li>", x, "</li>", rest);
    assert TagPrefixes(x, ok) && '\n' !in x;
    assert "</li>"[..3] == "</l";
    LazyCloseBefore(x, "</li>" + rest, "</li>", false, ok);
    SearchAtFront(s, ItemPattern, |x|);
  }

  /** Slicing a string made of an opening, a body, a closing and a rest. */
  lemma Framed(o: string, x: string, c: string, rest: string)
    ensures var s := o + x + c + rest;
            StartsWith(s, o) && s[|o|..] == x + (c + rest) && StartsWith(c + rest, c)
            && s[|o|..|o| + |x|] == x && s[|o| + |x| + |c|..] == rest
  {
    var s := o + x + c + rest;
    assert s[..|o|] == o;
    assert s[|o|..] == x + (c + rest);
    assert (c + rest)[..|c|] == c;
  }

  lemma ItemsWithTail(xs: seq<string>, ok: set<string>)
    requires xs != [] && ItemsWith(xs, ok)
    ensures ItemsWith(xs[1..], ok)
  {
    forall k | 0 <= k < |xs[1..]| ensures TagPrefixes(xs[1..][k], ok) && '\n' !in xs[1..][k] {
      assert xs[1..][k] == xs[k + 1];
    }
  }

  /** A line on which no heading or paragraph pattern matches falls through
      to the list pattern, then to the code pattern. */
  lemma FallThrough(s: string)
    requires Search(s, H2Pattern) == None && Search(s, H3Pattern) == None
    requires Search(s, ParaPattern) == None
    ensures SearchGroup(s, ListPattern).Some? ==>
              LineElements(s) == Bullets(FindAll(SearchGroup(s, ListPattern).value, ItemPattern))
    ensures Search(s, ListPattern) == None && SearchGroup(s, CodePattern).Some? ==>
              LineElements(s) == [Scanner.CodeParagraph(Unescape(SearchGroup(s, CodePattern).value), Scanner.Plain), Blank]
    ensures Search(s, ListPattern) == None && Search(s, CodePattern) == None ==> LineElements(s) == []
  {
  }

  /** The tags of a ul line are those of its items and its own. */
  lemma ListLinePrefixes(items: string, inner: set<string>)
    requires TagPrefixes(items, inner)
    ensures TagPrefixes("<ul>" + items + "</ul>", {"<ul"} + inner + {"</u"})
  {
    assert "<ul>"[1..] == "ul>" && "</ul>"[1..] == "/ul>";
    OneTag("<ul>", "<ul");
    OneTag("</ul>", "</u");
    TagPrefixesConcat("<ul>", items, {"<ul"}, inner);
    TagPrefixesConcat("<ul>" + items, "</ul>", {"<ul"} + inner, {"</u"});
  }

  /** A ul line gives one bullet per `<li>` item, in order, inline tags
      included. No inline tag may start like a heading, paragraph or closing
      list tag. */
  lemma ListLine(xs: seq<string>, ok: set<string>)
    requires ItemsWith(xs, ok)
    requires "<h2" !in ok && "<h3" !in ok && "<p>" !in ok && "</l" !in ok && "</u" !in ok
    ensures LineElements("<ul>" + Items(xs) + "</ul>") == Bullets(xs)
  {
    var items := Items(xs);
    var s := "<ul>" + items + "</ul>";
    var inner := {"<li", "</l"} + ok;
    ItemsPrefixes(xs, ok);
    ListLinePrefixes(items, inner);
    var all := {"<ul"} + inner + {"</u"};
    OpenPrefixes();
    NoMatchByPrefixes(s, H2Pattern, all);
    NoMatchByPrefixes(s, H3Pattern, all);
    NoMatchByPrefixes(s, ParaPattern, all);
    assert "</ul>"[..3] == "</u" && "</u"[1] != "<li"[1] && "</u"[2] != "</l"[2];
    LazyCloseBefore(items, "</ul>", "</ul>", true, inner);
    assert SearchGroup(s, ListPattern) == Some(items) by {
      assert s[..4] == "<ul>";
      assert s[4..] == items + "</ul>";
      SearchAtFront(s, ListPattern, |items|);
      assert s[4..4 + |items|] == items;
    }
    FallThrough(s);
    FindAllItems(xs, ok);
  }

  /** The tags of a code line are those of its delimiters. */
  lemma CodeLinePrefixes(e: string)
    requires '<' !in e
    ensures TagPrefixes("<pre><code>" + e + "</code></pre>", {"<pr", "<co", "</c", "</p"})
  {
    assert "<pre>"[1..] == "pre>" && "<code>"[1..] == "code>";
    assert "</code>"[1..] == "/code>" && "</pre>"[1..] == "/pre>";
    OneTag("<pre>", "<pr");
    OneTag("<code>", "<co");
    OneTag("</code>", "</c");
    OneTag("</pre>", "</p");
    TagPrefixesNone(e);
    TagPrefixesConcat("<pre>", "<code>", {"<pr"}, {"<co"});
    assert "<pre>" + "<code>" == "<pre><code>";
    TagPrefixesConcat("</code>", "</pre>", {"</c"}, {"</p"});
    assert "</code>" + "</pre>" == "</code></pre>";
    TagPrefixesConcat("<pre><code>", e, {"<pr"} + {"<co"}, {});
    TagPrefixesConcat("<pre><code>" + e, "</code></pre>", {"<pr"} + {"<co"} + {}, {"</c"} + {"</p"});
    assert {"<pr"} + {"<co"} + {} + ({"</c"} + {"</p"}) == {"<pr", "<co", "</c", "</p"};
  }

  /** A one-line code block gives a plain code paragraph and a blank one; the
      entity replacement undoes the escaping of `&`, `<` and `>`. */
  lemma CodeLine(x: string)
    ensures LineElements("<pre><code>" + Escape(x) + "</code></pre>")
            == [Scanner.CodeParagraph(x, Scanner.Plain), Blank]
  {
    var e := Escape(x);
    var s := "<pre><code>" + e + "</code></pre>";
    EscapeNoLt(x);
    CodeLinePrefixes(e);
    var ok := {"<pr", "<co", "</c", "</p"};
    OpenPrefixes();
    NoMatchByPrefixes(s, H2Pattern, ok);
    NoMatchByPrefixes(s, H3Pattern, ok);
    NoMatchByPrefixes(s, ParaPattern, ok);
    NoMatchByPrefixes(s, ListPattern, ok);
    MatchFront(e, "", CodePattern);
    assert s + "" == s;
    FallThrough(s);
    UnescapeEscape(x);
  }

  /** A line with no tag prefix the dispatch knows emits nothing. */
  lemma SilentLine(s: string, ok: set<string>)
    requires TagPrefixes(s, ok)
    requires "<h2" !in ok && "<h3" !in ok && "<p>" !in ok && "<ul" !in ok && "<pr" !in ok
    ensures LineElements(s) == []
  {
    OpenPrefixes();
    NoMatchByPrefixes(s, H2Pattern, ok);
    NoMatchByPrefixes(s, H3Pattern, ok);
    NoMatchByPrefixes(s, ParaPattern, ok);
    NoMatchByPrefixes(s, ListPattern, ok);
    NoMatchByPrefixes(s, CodePattern, ok);
    FallThrough(s);
  }

  /** An opening ul tag alone on its line emits nothing. */
  lemma OpenListLineSilent()
    ensures LineElements("<ul>") == []
  {
    var s := "<ul>";
    assert s[1..] == "ul>";
    OneTag(s, "<ul");
    OpenPrefixes();
    NoMatchByPrefixes(s, H2Pattern, {"<ul"});
    NoMatchByPrefixes(s, H3Pattern, {"<ul"});
    NoMatchByPrefixes(s, ParaPattern, {"<ul"});
    NoMatchByPrefixes(s, CodePattern, {"<ul"});
    TagPrefixesNone("ul>");
    NoMatchByPrefixes("ul>", ListPattern, {});
    assert s[4..] == "" && LazyClose("", "</ul>", true) == None;
    assert Search(s, ListPattern) == None;
    FallThrough(s);
  }

  /** An item alone on its line emits nothing: it is not inside a ul tag on
      that line. */
  lemma ItemLineSilent(x: string)
    requires '<' !in x
    ensures LineElements("<li>" + x + "</li>") == []
  {
    assert "<li>"[1..] == "li>" && "</li>"[1..] == "/li>";
    OneTag("<li>", "<li");
    OneTag("</li>", "</l");
    TagPrefixesNone(x);
    TagPrefixesConcat("<li>", x, {"<li"}, {});
    TagPrefixesConcat("<li>" + x, "</li>", {"<li"} + {}, {"</l"});
    SilentLine("<li>" + x + "</li>", {"<li"} + {} + {"</l"});
  }

  /** A closing ul tag alone on its line emits nothing. */
  lemma CloseListLineSilent()
    ensures LineElements("</ul>") == []
  {
    assert "</ul>"[1..] == "/ul>";
    OneTag("</ul>", "</u");
    SilentLine("</ul>", {"</u"});
  }

  /** A list spread over several lines, as a markdown renderer writes it,
      gives no bullet at all: no single line holds both `<ul>` and `</ul>`. */
  lemma MultiLineListDropped(x: string)
    requires '<' !in x
    ensures HtmlBody(["<ul>", "<li>" + x + "</li>", "</ul>"]) == []
  {
    var item := "<li>" + x + "</li>";
    OpenListLineSilent();
    ItemLineSilent(x);
    CloseListLineSilent();
    EachLineSnoc([], "<ul>", LineElements);
    EachLineSnoc(["<ul>"], item, LineElements);
    EachLineSnoc(["<ul>", item], "</ul>", LineElements);
    assert [] + ["<ul>"] == ["<ul>"] && ["<ul>"] + [item] == ["<ul>", item];
    assert ["<ul>", item] + ["</ul>"] == ["<ul>", item, "</ul>"];
  }

  /** The first line of a paragraph the renderer spreads over two lines
      holds the opening tag but not the closing one, so it emits nothing. */
  lemma ParagraphOpenLineSilent(a: string)
    requires '<' !in a
    ensures LineElements("<p>" + a) == []
  {
    var s := "<p>" + a;
    assert "<p>"[1..] == "p>";
    OneTag("<p>", "<p>");
    TagPrefixesNone(a);
    TagPrefixesConcat("<p>", a, {"<p>"}, {});
    var ok := {"<p>"} + {};
    OpenPrefixes();
    NoMatchByPrefixes(s, H2Pattern, ok);
    NoMatchByPrefixes(s, H3Pattern, ok);
    assert "</p>"[..3] == "</p";
    NoMatchWithoutClose(s, ParaPattern, ok);
    NoMatchByPrefixes(s, ListPattern, ok);
    NoMatchByPrefixes(s, CodePattern, ok);
    FallThrough(s);
  }

  /** Its last line holds the closing tag alone, and emits nothing either. */
  lemma ParagraphCloseLineSilent(b: string)
    requires '<' !in b
    ensures LineElements(b + "</p>") == []
  {
    assert "</p>"[1..] == "/p>";
    OneTag("</p>", "</p");
    TagPrefixesNone(b);
    TagPrefixesConcat(b, "</p>", {}, {"</p"});
    SilentLine(b + "</p>", {} + {"</p"});
  }

  /** A paragraph spread over two lines is lost. */
  lemma MultiLineParagraphDropped(a: string, b: string)
    requires '<' !in a && '<' !in b
    ensures HtmlBody(["<p>" + a, b + "</p>"]) == []
  {
    ParagraphOpenLineSilent(a);
    ParagraphCloseLineSilent(b);
    EachLineSnoc([], "<p>" + a, LineElements);
    EachLineSnoc(["<p>" + a], b + "</p>", LineElements);
    assert [] + ["<p>" + a] == ["<p>" + a];
    assert ["<p>" + a] + [b + "</p>"] == ["<p>" + a, b + "</p>"];
  }

  /** The first line of a code block spread over two lines emits nothing. */
  lemma CodeOpenLineSilent(a: string)
    requires '<' !in a
    ensures LineElements("<pre><code>" + a) == []
  {
    var s := "<pre><code>" + a;
    assert "<pre>"[1..] == "pre>" && "<code>"[1..] == "code>";
    OneTag("<pre>", "<pr");
    OneTag("<code>", "<co");
    TagPrefixesNone(a);
    TagPrefixesConcat("<pre>", "<code>", {"<pr"}, {"<co"});
    assert "<pre>" + "<code>" == "<pre><code>";
    TagPrefixesConcat("<pre><code>", a, {"<pr"} + {"<co"}, {});
    var ok := {"<pr"} + {"<co"} + {};
    OpenPrefixes();
    NoMatchByPrefixes(s, H2Pattern, ok);
    NoMatchByPrefixes(s, H3Pattern, ok);
    NoMatchByPrefixes(s, ParaPattern, ok);
    NoMatchByPrefixes(s, ListPattern, ok);
    assert "</code></pre>"[..3] == "</c";
    NoMatchWithoutClose(s, CodePattern, ok);
    FallThrough(s);
  }

  /** Its last line holds the closing tags alone, and emits nothing either. */
  lemma CodeCloseLineSilent(b: string)
    requires '<' !in b
    ensures LineElements(b + "</code></pre>") == []
  {
    assert "</code>"[1..] == "/code>" && "</pre>"[1..] == "/pre>";
    OneTag("</code>", "</c");
    OneTag("</pre>", "</p");
    TagPrefixesNone(b);
    TagPrefixesConcat("</code>", "</pre>", {"</c"}, {"</p"});
    assert "</code>" + "</pre>" == "</code></pre>";
    TagPrefixesConcat(b, "</code></pre>", {}, {"</c"} + {"</p"});
    SilentLine(b + "</code></pre>", {} + ({"</c"} + {"</p"}));
  }

  /** A code block spread over two lines is lost. */
  lemma MultiLineCodeDropped(a: string, b: string)
    requires '<' !in a && '<' !in b
    ensures HtmlBody(["<pre><code>" + a, b + "</code></pre>"]) == []
  {
    CodeOpenLineSilent(a);
    CodeCloseLineSilent(b);
    EachLineSnoc([], "<pre><code>" + a, LineElements);
    EachLineSnoc(["<pre><code>" + a], b + "</code></pre>", LineElements);
    assert [] + ["<pre><code>" + a] == ["<pre><code>" + a];
    assert ["<pre><code>" + a] + [b + "</code></pre>"] == ["<pre><code>" + a, b + "</code></pre>"];
  }

  /** The order of the patterns decides, not the position on the line: a line
      holding a paragraph and then an h2 heading gives the heading only. */
  lemma PatternOrderBeatsPosition(x: string, y: string)
    requires '<' !in x && '<' !in y && '\n' !in y
    ensures LineElements("<p>" + x + "</p>" + ("<h2>" + y + "</h2>")) == [BodyHeading(H2, y)]
  {
    var a := "<p>" + x + "</p>";
    var c := "<h2>" + y + "</h2>";
    assert "<p>"[1..] == "p>" && "</p>"[1..] == "/p>";
    OneTag("<p>", "<p>");
    TagPrefixesNone(x);
    OneTag("</p>", "</p");
    TagPrefixesConcat("<p>", x, {"<p>"}, {});
    TagPrefixesConcat("<p>" + x, "</p>", {"<p>"} + {}, {"</p"});
    var ok := {"<p>"} + {} + {"</p"};
    OpenPrefixes();
    forall m | 0 <= m < |a| ensures MatchHere(a[m..] + c, H2Pattern).None? {
      NoOpenInPrefix(a, c, m, "<h2>", ok);
      NoMatchHere(a[m..] + c, H2Pattern);
    }
    SearchGroupSkip(a, c, H2Pattern);
    MatchFront(y, "", H2Pattern);
    assert c + "" == c;
  }
}
