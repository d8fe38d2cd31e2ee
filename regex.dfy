/** The Python `re` behaviour the HTML converter relies on, for patterns of the
    one shape it compiles: `open(.*?)close` with literal `open` and `close`,
    where `.` matches any character but '\n' unless the pattern has DOTALL.
    Also `str.replace`. */
module Regex {
  import opened Wrappers
  import opened Strings

  /** A literal-delimited lazy pattern. */
  datatype Pattern = Pattern(open: string, close: string, dotAll: bool)

  /** Well-formed patterns: both delimiters are non-empty. */
  predicate ValidPattern(p: Pattern) {
    p.open != [] && p.close != []
  }

  /** The lazy group `(.*?)` followed by `close`, matched at the start of `t`:
      the length of the shortest group after which `close` follows. */
  function LazyClose(t: string, close: string, dotAll: bool): (r: Option<nat>)
    ensures r.Some? ==> r.value + |close| <= |t|
    decreases |t|
  {
    if StartsWith(t, close) then Some(0)
    else if t != [] && (dotAll || t[0] != '\n') then
      match LazyClose(t[1..], close, dotAll)
      case Some(n) => Some(n + 1)
      case None => None
    else None
  }

  /** The group `.*?` may cover `t[..k]` and be followed by `close`. */
  predicate CloseAt(t: string, close: string, dotAll: bool, k: nat)
    requires k <= |t|
  {
    StartsWith(t[k..], close) && (dotAll || '\n' !in t[..k])
  }

  /** The lazy group is the shortest one: `LazyClose` yields `k` exactly when
      `close` can follow `t[..k]` and at no shorter length. */
  lemma LazyCloseSpec(t: string, close: string, dotAll: bool, k: nat)
    requires k <= |t|
    ensures LazyClose(t, close, dotAll) == Some(k)
            <==> CloseAt(t, close, dotAll, k) && forall j :: 0 <= j < k ==> !StartsWith(t[j..], close)
  {
    LazyCloseSound(t, close, dotAll);
    if CloseAt(t, close, dotAll, k) && forall j :: 0 <= j < k ==> !StartsWith(t[j..], close) {
      LazyCloseShortest(t, close, dotAll, k);
    }
  }

  /** A group found by `LazyClose` is followed by `close`, and `close` starts
      nowhere inside it. */
  lemma {:induction false} LazyCloseSound(t: string, close: string, dotAll: bool)
    ensures LazyClose(t, close, dotAll).Some? ==>
              var k := LazyClose(t, close, dotAll).value;
              k <= |t| && CloseAt(t, close, dotAll, k)
              && forall j :: 0 <= j < k ==> !StartsWith(t[j..], close)
    decreases |t|
  {
    if StartsWith(t, close) {
      assert t[0..] == t && t[..0] == [];
    } else if t != [] && (dotAll || t[0] != '\n') {
      LazyCloseSound(t[1..], close, dotAll);
      match LazyClose(t[1..], close, dotAll)
      case None =>
      case Some(n) =>
        var k := n + 1;
        assert StartsWith(t[k..], close) by {
          assert t[k..] == t[1..][n..];
        }
        if !dotAll {
          assert t[..k] == [t[0]] + t[1..][..n];
        }
        forall j | 0 <= j < k ensures !StartsWith(t[j..], close) {
          if j == 0 {
            assert t[0..] == t;
          } else {
            assert t[j..] == t[1..][j - 1..];
          }
        }
    }
  }

  /** Without DOTALL the lazy group holds no '\n'. */
  lemma {:induction false} LazyCloseOneLine(t: string, close: string)
    ensures LazyClose(t, close, false).Some? ==> '\n' !in t[..LazyClose(t, close, false).value]
    decreases |t|
  {
    if !StartsWith(t, close) && t != [] && t[0] != '\n' {
      LazyCloseOneLine(t[1..], close);
      match LazyClose(t[1..], close, false)
      case None =>
      case Some(n) =>
        assert t[..n + 1] == [t[0]] + t[1..][..n];
    }
  }

  /** When `close` can follow `t[..k]` and starts nowhere before `k`,
      `LazyClose` finds `k`. */
  lemma {:induction false} LazyCloseShortest(t: string, close: string, dotAll: bool, k: nat)
    requires k <= |t| && CloseAt(t, close, dotAll, k)
    requires forall j :: 0 <= j < k ==> !StartsWith(t[j..], close)
    ensures LazyClose(t, close, dotAll) == Some(k)
    decreases k
  {
    assert t[0..] == t;
    if k > 0 {
      assert t[0] == t[..k][0];
      var u := t[1..];
      assert u[k - 1..] == t[k..];
      assert t[..k] == [t[0]] + u[..k - 1];
      forall j | 0 <= j < k - 1 ensures !StartsWith(u[j..], close) {
        assert u[j..] == t[j + 1..];
      }
      LazyCloseShortest(u, close, dotAll, k - 1);
    }
  }

  /** When `close` starts with a character that the group text lacks, the
      group stops right at the first `close` after it. */
  lemma {:induction false} LazyCloseSkip(x: string, tail: string, close: string, dotAll: bool)
    requires close != [] && close[0] !in x
    requires dotAll || '\n' !in x
    requires StartsWith(tail, close)
    ensures LazyClose(x + tail, close, dotAll) == Some(|x|)
    decreases |x|
  {
    if x == [] {
      assert x + tail == tail;
    } else {
      assert (x + tail)[0] == x[0];
      assert (x + tail)[1..] == x[1..] + tail;
      LazyCloseSkip(x[1..], tail, close, dotAll);
    }
  }

  /** The group length when the pattern matches at the start of `s`: the
      opening delimiter, character by character, then the lazy group. */
  function MatchHere(s: string, p: Pattern): (r: Option<nat>)
    ensures r.Some? ==> |p.open| + r.value + |p.close| <= |s|
  {
    MatchOpen(s, p.open, p)
  }

  /** Matches the rest `o` of the opening delimiter, then the group. */
  function MatchOpen(s: string, o: string, p: Pattern): (r: Option<nat>)
    ensures r.Some? ==> |o| + r.value + |p.close| <= |s|
  {
    if o == [] then LazyClose(s, p.close, p.dotAll)
    else if s != [] && s[0] == o[0] then MatchOpen(s[1..], o[1..], p)
    else None
  }

  lemma {:induction false} MatchOpenSpec(s: string, o: string, p: Pattern)
    ensures MatchOpen(s, o, p) == if StartsWith(s, o) then LazyClose(s[|o|..], p.close, p.dotAll) else None
  {
    if o == [] {
      assert s[0..] == s;
    } else if s != [] && s[0] == o[0] {
      MatchOpenSpec(s[1..], o[1..], p);
      if |o| <= |s| {
        assert s[1..][|o| - 1..] == s[|o|..];
        assert s[..|o|] == [s[0]] + s[1..][..|o| - 1];
        assert o == [o[0]] + o[1..];
      }
    }
  }

  /** The pattern matches at the start of `s` when `s` starts with the opening
      delimiter and the lazy group closes after it. */
  lemma MatchHereSpec(s: string, p: Pattern)
    ensures MatchHere(s, p) == if StartsWith(s, p.open) then LazyClose(s[|p.open|..], p.close, p.dotAll) else None
  {
    MatchOpenSpec(s, p.open, p);
  }

  /** The group of a match, as positions in the searched text. */
  datatype Span = Span(start: nat, stop: nat)

  /** `pattern.search(s)` from position `i` on: the span of the group at the
      first position, `i` or later, where the pattern matches. */
  function SearchFrom(s: string, p: Pattern, i: nat): (r: Option<Span>)
    requires i <= |s|
    ensures r.Some? ==> i + |p.open| <= r.value.start <= r.value.stop && r.value.stop + |p.close| <= |s|
    decreases |s| - i
  {
    match MatchHere(s[i..], p)
    case Some(n) => Some(Span(i + |p.open|, i + |p.open| + n))
    case None => if i == |s| then None else SearchFrom(s, p, i + 1)
  }

  /** `pattern.search(s)`: the span of the group of the leftmost match. */
  function Search(s: string, p: Pattern): (r: Option<Span>)
    ensures r.Some? ==> |p.open| <= r.value.start <= r.value.stop && r.value.stop + |p.close| <= |s|
  {
    SearchFrom(s, p, 0)
  }

  /** `pattern.search(s).group(1)`, or None when nothing matches. */
  function SearchGroup(s: string, p: Pattern): Option<string> {
    match Search(s, p)
    case Some(m) => Some(s[m.start..m.stop])
    case None => None
  }

  /** The pattern matches at the position the span `m` gives. */
  ghost predicate MatchesAt(s: string, p: Pattern, m: Span) {
    |p.open| <= m.start <= m.stop <= |s|
    && MatchHere(s[m.start - |p.open|..], p) == Some(m.stop - m.start)
  }

  /** The pattern matches at no position before `i`. */
  ghost predicate NoMatchBefore(s: string, p: Pattern, i: int) {
    forall j :: 0 <= j < i && j <= |s| ==> MatchHere(s[j..], p).None?
  }

  lemma {:induction false} SearchFromLeftmost(s: string, p: Pattern, i: nat)
    requires i <= |s| && NoMatchBefore(s, p, i)
    ensures SearchFrom(s, p, i).Some? ==> MatchesAt(s, p, SearchFrom(s, p, i).value)
    ensures SearchFrom(s, p, i).Some? ==> NoMatchBefore(s, p, SearchFrom(s, p, i).value.start - |p.open|)
    ensures SearchFrom(s, p, i).None? ==> NoMatchBefore(s, p, |s| + 1)
    decreases |s| - i
  {
    if MatchHere(s[i..], p).None? && i < |s| {
      SearchFromLeftmost(s, p, i + 1);
    }
  }

  lemma {:induction false} SearchFromMatches(s: string, p: Pattern, i: nat)
    requires i <= |s|
    ensures SearchFrom(s, p, i).Some? ==> MatchesAt(s, p, SearchFrom(s, p, i).value)
    decreases |s| - i
  {
    if MatchHere(s[i..], p).None? && i < |s| {
      SearchFromMatches(s, p, i + 1);
    }
  }

  /** Search finds the leftmost match: the pattern matches where the span says
      and at no earlier position, and finds nothing only when it matches
      nowhere. */
  lemma SearchLeftmost(s: string, p: Pattern)
    ensures Search(s, p).Some? ==> MatchesAt(s, p, Search(s, p).value)
    ensures Search(s, p).Some? ==> NoMatchBefore(s, p, Search(s, p).value.start - |p.open|)
    ensures Search(s, p).None? ==> NoMatchBefore(s, p, |s| + 1)
  {
    SearchFromLeftmost(s, p, 0);
  }

  /** The group found by a search never spans a '\n' unless the pattern has DOTALL. */
  lemma SearchGroupOneLine(s: string, p: Pattern)
    requires !p.dotAll && SearchGroup(s, p).Some?
    ensures '\n' !in SearchGroup(s, p).value
  {
    SearchFromMatches(s, p, 0);
    GroupOneLine(s, p, Search(s, p).value);
  }

  /** The group of a match without DOTALL holds no '\n'. */
  lemma GroupOneLine(s: string, p: Pattern, m: Span)
    requires !p.dotAll && MatchesAt(s, p, m)
    ensures '\n' !in s[m.start..m.stop]
  {
    var i, k := m.start - |p.open|, m.stop - m.start;
    var u := s[i..];
    var t := u[|p.open|..];
    assert LazyClose(t, p.close, false) == Some(k) by {
      MatchHereSpec(u, p);
    }
    assert '\n' !in t[..k] by {
      LazyCloseOneLine(t, p.close);
    }
    SliceOfSlice(s, i, |p.open|, k);
  }

  lemma SliceOfSlice(s: string, i: nat, j: nat, k: nat)
    requires i + j + k <= |s|
    ensures s[i..][j..][..k] == s[i + j..i + j + k]
  {
  }

  /** `pattern.findall(s)` for a pattern with one group: the groups of the
      successive non-overlapping matches, left to right. */
  function FindAll(s: string, p: Pattern): seq<string>
    requires ValidPattern(p)
    decreases |s|
  {
    match Search(s, p)
    case None => []
    case Some(m) => [s[m.start..m.stop]] + FindAll(s[m.stop + |p.close|..], p)
  }

  /** The first element of `findall` is the group of `search`. */
  lemma FindAllFirst(s: string, p: Pattern)
    requires ValidPattern(p)
    ensures FindAll(s, p) != [] <==> SearchGroup(s, p).Some?
    ensures FindAll(s, p) != [] ==> FindAll(s, p)[0] == SearchGroup(s, p).value
  {
  }

  /** Python's `s.replace(pat, rep)` for a non-empty `pat`: every occurrence,
      left to right, without overlaps. */
  function Replace(s: string, pat: string, rep: string): string
    requires pat != []
    decreases |s|
  {
    if StartsWith(s, pat) then rep + Replace(s[|pat|..], pat, rep)
    else if s == [] then []
    else [s[0]] + Replace(s[1..], pat, rep)
  }

  /** Text without the first character of `pat` passes through unchanged. */
  lemma {:induction false} ReplaceSkip(x: string, rest: string, pat: string, rep: string)
    requires pat != [] && pat[0] !in x
    ensures Replace(x + rest, pat, rep) == x + Replace(rest, pat, rep)
    decreases |x|
  {
    if x != [] {
      var s := x + rest;
      assert s[0] == x[0];
      assert !StartsWith(s, pat);
      assert s[1..] == x[1..] + rest;
      ReplaceSkip(x[1..], rest, pat, rep);
    } else {
      assert x + rest == rest;
    }
  }

  /** An occurrence at the front is replaced. */
  lemma ReplaceFront(rest: string, pat: string, rep: string)
    requires pat != []
    ensures Replace(pat + rest, pat, rep) == rep + Replace(rest, pat, rep)
  {
    assert (pat + rest)[..|pat|] == pat;
    assert (pat + rest)[|pat|..] == rest;
  }

  /** A text where the pattern's opening delimiter occurs nowhere has no match. */
  lemma NoMatchWithoutOpen(s: string, p: Pattern)
    requires ValidPattern(p)
    requires forall m :: 0 <= m < |s| ==> !StartsWith(s[m..], p.open)
    ensures Search(s, p) == None
  {
    NoMatchFrom(s, p, 0);
  }

  lemma {:induction false} NoMatchFrom(s: string, p: Pattern, i: nat)
    requires ValidPattern(p) && i <= |s|
    requires forall m :: i <= m < |s| ==> !StartsWith(s[m..], p.open)
    ensures SearchFrom(s, p, i) == None
    decreases |s| - i
  {
    MatchHereSpec(s[i..], p);
    if i < |s| {
      NoMatchFrom(s, p, i + 1);
    }
  }

  /** Every '<' in `s` begins one of the three-character prefixes in `ok`. */
  ghost predicate TagPrefixes(s: string, ok: set<string>) {
    forall m :: 0 <= m < |s| && s[m] == '<' ==> m + 3 <= |s| && s[m..m + 3] in ok
  }

  lemma TagPrefixesNone(x: string)
    requires '<' !in x
    ensures TagPrefixes(x, {})
  {
    forall m | 0 <= m < |x| ensures x[m] != '<' {
      assert x[m] in x;
    }
  }

  lemma TagPrefixesConcat(a: string, b: string, okA: set<string>, okB: set<string>)
    requires TagPrefixes(a, okA) && TagPrefixes(b, okB)
    ensures TagPrefixes(a + b, okA + okB)
  {
    var s := a + b;
    forall m | 0 <= m < |s| && s[m] == '<' ensures m + 3 <= |s| && s[m..m + 3] in okA + okB {
      if m < |a| {
        assert s[m] == a[m];
        assert s[m..m + 3] == a[m..m + 3];
      } else {
        assert s[m] == b[m - |a|];
        assert s[m..m + 3] == b[m - |a|..m - |a| + 3];
      }
    }
  }

  /** A pattern whose opening delimiter starts with '<' and with a
      three-character prefix outside `ok` cannot match a text where every '<'
      begins a prefix in `ok`. */
  lemma NoMatchByPrefixes(s: string, p: Pattern, ok: set<string>)
    requires ValidPattern(p) && |p.open| >= 3 && p.open[0] == '<' && p.open[..3] !in ok
    requires TagPrefixes(s, ok)
    ensures Search(s, p) == None
  {
    forall m | 0 <= m < |s| ensures !StartsWith(s[m..], p.open) {
      NoOpenAtByPrefixes(s, m, p.open, ok);
    }
    NoMatchWithoutOpen(s, p);
  }

  /** Nor does the pattern match where no tag starts like its closing
      delimiter: an opening delimiter alone is not a match. */
  lemma NoMatchWithoutClose(s: string, p: Pattern, ok: set<string>)
    requires |p.close| >= 3 && p.close[0] == '<' && p.close[..3] !in ok
    requires TagPrefixes(s, ok)
    ensures Search(s, p) == None
  {
    SearchLeftmost(s, p);
    if Search(s, p).Some? {
      var j := Search(s, p).value.start - |p.open|;
      MatchHereSpec(s[j..], p);
      assert s[j..][|p.open|..] == s[j + |p.open|..];
      NoCloseAfter(s, j + |p.open|, p.close, p.dotAll, ok);
    }
  }

  /** No lazy group ends anywhere in such a text. */
  lemma NoCloseAfter(s: string, i: nat, close: string, dotAll: bool, ok: set<string>)
    requires |close| >= 3 && close[0] == '<' && close[..3] !in ok
    requires TagPrefixes(s, ok) && i <= |s|
    ensures LazyClose(s[i..], close, dotAll) == None
  {
    LazyCloseSound(s[i..], close, dotAll);
    if LazyClose(s[i..], close, dotAll).Some? {
      var k := LazyClose(s[i..], close, dotAll).value;
      assert s[i..][k..] == s[i + k..];
      NoOpenAtByPrefixes(s, i + k, close, ok);
    }
  }

  /** The same, for one position: the opening delimiter does not start there. */
  lemma NoOpenAtByPrefixes(s: string, m: nat, open: string, ok: set<string>)
    requires |open| >= 3 && open[0] == '<' && open[..3] !in ok
    requires TagPrefixes(s, ok) && m <= |s|
    ensures !StartsWith(s[m..], open)
  {
    if m < |s| {
      NoOpenInPrefix(s, [], m, open, ok);
      assert s[m..] + [] == s[m..];
    }
  }

  /** A delimiter cannot start inside a part whose tags all have other
      prefixes, whatever follows that part. */
  lemma NoOpenInPrefix(a: string, c: string, m: nat, open: string, ok: set<string>)
    requires |open| >= 3 && open[0] == '<' && open[..3] !in ok
    requires TagPrefixes(a, ok) && m < |a|
    ensures !StartsWith(a[m..] + c, open)
  {
    var t := a[m..] + c;
    if |open| <= |t| {
      var w := t[..|open|];
      assert w[0] == a[m];
      if a[m] == '<' {
        assert w[..3] == a[m..m + 3];
      }
    }
  }

  lemma TagPrefixesWeaken(s: string, ok: set<string>, more: set<string>)
    requires TagPrefixes(s, ok) && ok <= more
    ensures TagPrefixes(s, more)
  {
  }

  /** A tag-like literal: its only '<' is the first character. */
  lemma OneTag(s: string, prefix: string)
    requires |s| >= 3 && s[0] == '<' && '<' !in s[1..] && s[..3] == prefix
    ensures TagPrefixes(s, {prefix})
  {
    forall m | 0 <= m < |s| ensures s[m] == '<' ==> m + 3 <= |s| && s[m..m + 3] in {prefix} {
      if m > 0 {
        assert s[m] == s[1..][m - 1];
      }
    }
  }

  /** The lazy group stops at the first `close` after a part whose tags all
      have other prefixes. */
  lemma LazyCloseBefore(x: string, tail: string, close: string, dotAll: bool, ok: set<string>)
    requires |close| >= 3 && close[0] == '<' && close[..3] !in ok
    requires TagPrefixes(x, ok) && (dotAll || '\n' !in x)
    requires StartsWith(tail, close)
    ensures LazyClose(x + tail, close, dotAll) == Some(|x|)
  {
    var t := x + tail;
    assert t[|x|..] == tail;
    assert t[..|x|] == x;
    forall j | 0 <= j < |x| ensures !StartsWith(t[j..], close) {
      NoOpenInPrefix(x, tail, j, close, ok);
      assert t[j..] == x[j..] + tail;
    }
    LazyCloseSpec(t, close, dotAll, |x|);
  }

  /** A leading part with no match in it, even when extended by the rest, is
      skipped: the search finds the match that the rest alone would give,
      shifted by the length of the leading part. */
  lemma SearchSkip(a: string, c: string, p: Pattern)
    requires forall m :: 0 <= m < |a| ==> MatchHere(a[m..] + c, p).None?
    ensures Search(a + c, p) == Shift(Search(c, p), |a|)
  {
    SearchFromSkip(a, c, p, 0);
  }

  lemma {:induction false} SearchFromSkip(a: string, c: string, p: Pattern, i: nat)
    requires i <= |a|
    requires forall m :: 0 <= m < |a| ==> MatchHere(a[m..] + c, p).None?
    ensures SearchFrom(a + c, p, i) == Shift(SearchFrom(c, p, 0), |a|)
    decreases |a| - i
  {
    if i < |a| {
      assert (a + c)[i..] == a[i..] + c;
      SearchFromSkip(a, c, p, i + 1);
    } else {
      SearchFromShift(a, c, p, 0);
    }
  }

  /** Searching behind a prefix, from a position past it, finds what the
      search of the rest finds, shifted by the prefix's length. */
  lemma {:induction false} SearchFromShift(a: string, c: string, p: Pattern, i: nat)
    requires i <= |c|
    ensures SearchFrom(a + c, p, |a| + i) == Shift(SearchFrom(c, p, i), |a|)
    decreases |c| - i
  {
    SuffixOfConcat(a, c, i);
    SameMatch(a + c, c, p, |a| + i, i);
    if i < |c| && MatchHere(c[i..], p).None? {
      SearchFromShift(a, c, p, i + 1);
    }
  }

  lemma SuffixOfConcat(a: string, c: string, i: nat)
    requires i <= |c|
    ensures (a + c)[|a| + i..] == c[i..]
  {
  }

  /** Two texts with the same suffix from their respective positions match
      the same there. */
  lemma SameMatch(s: string, t: string, p: Pattern, i: nat, j: nat)
    requires i <= |s| && j <= |t| && s[i..] == t[j..]
    ensures MatchHere(s[i..], p) == MatchHere(t[j..], p)
  {
  }

  function Shift(r: Option<Span>, n: nat): Option<Span> {
    match r
    case Some(m) => Some(Span(m.start + n, m.stop + n))
    case None => None
  }

  lemma SearchGroupSkip(a: string, c: string, p: Pattern)
    requires forall m :: 0 <= m < |a| ==> MatchHere(a[m..] + c, p).None?
    ensures SearchGroup(a + c, p) == SearchGroup(c, p)
  {
    SearchSkip(a, c, p);
    var s := a + c;
    match Search(c, p)
    case None =>
      assert Search(s, p) == None;
    case Some(m) =>
      assert Search(s, p) == Some(Span(m.start + |a|, m.stop + |a|));
      assert s[m.start + |a|..m.stop + |a|] == c[m.start..m.stop];
  }

  /** A text that starts with the opening delimiter, and whose lazy group
      closes after it, matches at its start. */
  lemma SearchAtFront(s: string, p: Pattern, n: nat)
    requires StartsWith(s, p.open) && LazyClose(s[|p.open|..], p.close, p.dotAll) == Some(n)
    ensures Search(s, p) == Some(Span(|p.open|, |p.open| + n))
    ensures SearchGroup(s, p) == Some(s[|p.open|..|p.open| + n])
  {
    assert s[0..] == s;
    MatchHereSpec(s, p);
  }

  /** The pattern does not match where its opening delimiter does not start. */
  lemma NoMatchHere(s: string, p: Pattern)
    requires !StartsWith(s, p.open)
    ensures MatchHere(s, p).None?
  {
    MatchHereSpec(s, p);
  }

  /** The pattern matches at the start of `open + x + close + rest` with group
      `x`, when `x` holds no first character of `close` (and no '\n' unless
      the pattern has DOTALL). */
  lemma MatchFront(x: string, rest: string, p: Pattern)
    requires ValidPattern(p) && p.close[0] !in x && (p.dotAll || '\n' !in x)
    ensures var s := p.open + x + p.close + rest;
            SearchGroup(s, p) == Some(x)
  {
    var s := p.open + x + p.close + rest;
    assert s[..|p.open|] == p.open;
    assert s[|p.open|..] == x + (p.close + rest);
    assert (p.close + rest)[..|p.close|] == p.close;
    LazyCloseSkip(x, p.close + rest, p.close, p.dotAll);
    SearchAtFront(s, p, |x|);
    assert s[|p.open|..|p.open| + |x|] == x;
  }
}
