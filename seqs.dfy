/** Line-by-line processing: the outputs of a function applied to each line
    of a text, concatenated in line order. */
module Seqs {

  /** The outputs of `f` for each of `lines`, in order. */
  function EachLine<T>(lines: seq<string>, f: string -> seq<T>): seq<T> {
    if lines == [] then [] else EachLine(lines[..|lines| - 1], f) + f(lines[|lines| - 1])
  }

  /** One more line adds its own output at the end. */
  lemma EachLineSnoc<T>(lines: seq<string>, line: string, f: string -> seq<T>)
    ensures EachLine(lines + [line], f) == EachLine(lines, f) + f(line)
  {
    assert (lines + [line])[..|lines|] == lines;
  }

  /** The output for the first `i + 1` lines extends that for the first `i`. */
  lemma EachLinePrefix<T>(lines: seq<string>, i: nat, f: string -> seq<T>)
    requires i < |lines|
    ensures EachLine(lines[..i + 1], f) == EachLine(lines[..i], f) + f(lines[i])
  {
    assert lines[..i + 1] == lines[..i] + [lines[i]];
    EachLineSnoc(lines[..i], lines[i], f);
  }

  /** Lines are handled independently: the output for a concatenation is the
      output for each part, in order. */
  lemma {:induction false} EachLineAppend<T>(a: seq<string>, b: seq<string>, f: string -> seq<T>)
    ensures EachLine(a + b, f) == EachLine(a, f) + EachLine(b, f)
    decreases |b|
  {
    if b == [] {
      assert a + b == a;
    } else {
      var init, last := b[..|b| - 1], b[|b| - 1];
      EachLineAppend(a, init, f);
      assert b == init + [last];
      assert a + b == (a + init) + [last];
      EachLineSnoc(a + init, last, f);
      EachLineSnoc(init, last, f);
    }
  }

  /** Each line's output sits between the outputs of the lines before it and
      of the lines after it. */
  lemma EachLineAt<T>(lines: seq<string>, n: nat, f: string -> seq<T>)
    requires n < |lines|
    ensures EachLine(lines, f) == EachLine(lines[..n], f) + f(lines[n]) + EachLine(lines[n + 1..], f)
  {
    var pre, post := lines[..n + 1], lines[n + 1..];
    assert lines == pre + post;
    EachLineAppend(pre, post, f);
    EachLinePrefix(lines, n, f);
  }

  /** Concatenation is associative; stated once so that proofs about long
      outputs can regroup them without looking inside the parts. */
  lemma AppendAssoc<T>(a: seq<T>, b: seq<T>, c: seq<T>)
    ensures (a + b) + c == a + (b + c)
  {
  }
}
