/** The entity replacement applied to code blocks by the HTML converter:
    `&lt;`, then `&gt;`, then `&amp;`, each by `str.replace`. */
module Entities {
  import opened Strings
  import opened Regex

  function Unescape(s: string): string {
    Replace(Replace(Replace(s, "&lt;", "<"), "&gt;", ">"), "&amp;", "&")
  }

  /** Escaping of one character, with `<` and `>` escaped only when asked;
      `&` is always escaped. */
  function EscapeChar(c: char, lt: bool, gt: bool): string {
    if c == '&' then "&amp;"
    else if c == '<' && lt then "&lt;"
    else if c == '>' && gt then "&gt;"
    else [c]
  }

  function EscapeWith(s: string, lt: bool, gt: bool): string {
    if s == [] then [] else EscapeChar(s[0], lt, gt) + EscapeWith(s[1..], lt, gt)
  }

  /** The HTML escaping of `&`, `<` and `>` that a markdown processor applies to code. */
  function Escape(s: string): string {
    EscapeWith(s, true, true)
  }

  /** One entity is not taken for another: a different second character
      rules out a match at its `&`, and the rest has no `&`. */
  lemma EntitySkip(e: string, rest: string, pat: string, rep: string)
    requires |e| >= 2 && |pat| >= 2 && e[0] == '&' && pat[0] == '&' && e[1] != pat[1]
    requires '&' !in e[1..]
    ensures Replace(e + rest, pat, rep) == e + Replace(rest, pat, rep)
  {
    var s := e + rest;
    assert s[1] == e[1];
    assert !StartsWith(s, pat);
    assert s[1..] == e[1..] + rest;
    ReplaceSkip(e[1..], rest, pat, rep);
    assert [e[0]] + e[1..] == e;
  }

  /** Replacing `&lt;` undoes the escaping of `<` and nothing else. */
  lemma {:induction false} UndoLt(s: string)
    ensures Replace(EscapeWith(s, true, true), "&lt;", "<") == EscapeWith(s, false, true)
  {
    if s != [] {
      var rest := EscapeWith(s[1..], true, true);
      UndoLt(s[1..]);
      var c := s[0];
      if c == '&' {
        EntitySkip("&amp;", rest, "&lt;", "<");
      } else if c == '<' {
        ReplaceFront(rest, "&lt;", "<");
      } else if c == '>' {
        EntitySkip("&gt;", rest, "&lt;", "<");
      } else {
        ReplaceSkip([c], rest, "&lt;", "<");
      }
    }
  }

  /** Replacing `&gt;` next undoes the escaping of `>`. */
  lemma {:induction false} UndoGt(s: string)
    ensures Replace(EscapeWith(s, false, true), "&gt;", ">") == EscapeWith(s, false, false)
  {
    if s != [] {
      var rest := EscapeWith(s[1..], false, true);
      UndoGt(s[1..]);
      var c := s[0];
      if c == '&' {
        EntitySkip("&amp;", rest, "&gt;", ">");
      } else if c == '>' {
        ReplaceFront(rest, "&gt;", ">");
      } else {
        ReplaceSkip([c], rest, "&gt;", ">");
      }
    }
  }

  /** Replacing `&amp;` last undoes the escaping of `&`. */
  lemma {:induction false} UndoAmp(s: string)
    ensures Replace(EscapeWith(s, false, false), "&amp;", "&") == s
  {
    if s != [] {
      var rest := EscapeWith(s[1..], false, false);
      UndoAmp(s[1..]);
      var c := s[0];
      if c == '&' {
        ReplaceFront(rest, "&amp;", "&");
      } else {
        ReplaceSkip([c], rest, "&amp;", "&");
      }
      assert [c] + s[1..] == s;
    }
  }

  /** The replacement order is right for escaped text: unescaping the
      escaping of any text gives the text back. */
  lemma UnescapeEscape(s: string)
    ensures Unescape(Escape(s)) == s
  {
    UndoLt(s);
    UndoGt(s);
    UndoAmp(s);
  }

  /** Because `&amp;` is replaced last, an escaped entity survives as an
      entity: `&amp;lt;` becomes `&lt;`, not `<`. */
  lemma EscapedEntitySurvives()
    ensures Unescape("&amp;lt;") == "&lt;"
  {
    var s := "&lt;";
    assert s == ['&'] + "lt;" && "lt;" == ['l'] + "t;" && "t;" == ['t'] + ";" && ";" == [';'] + [];
    assert Escape(s) == "&amp;lt;";
    UnescapeEscape(s);
  }

  /** Escaped text holds no `<`, and no '\n' unless the text had one. */
  lemma {:induction false} EscapeNoLt(s: string)
    ensures '<' !in Escape(s)
    ensures '\n' !in s ==> '\n' !in Escape(s)
  {
    if s != [] {
      EscapeNoLt(s[1..]);
      if '\n' !in s {
        assert '\n' !in s[1..] by {
          forall k | 0 <= k < |s[1..]| ensures s[1..][k] != '\n' {
            assert s[1..][k] == s[k + 1];
          }
        }
      }
    }
  }
}
