/**
 * The line classifier: how many lines of one file count as code. A line
 * counts when its stripped form is non-empty and does not start with the
 * extension's single-line comment marker. There is no block-comment state.
 */
module Classifier {
  import opened Wrappers
  import opened Text

  /**
   * What reading a file yields: every line, or the lines delivered before the
   * read failed (opening it, or decoding it as UTF-8, part-way through).
   */
  datatype FileContent = Read(lines: seq<string>) | ReadError(lines: seq<string>)

  /** Whether one physical line counts as code under `marker`. */
  predicate IsCodeLine(line: string, marker: Option<string>)
  {
    var s := Strip(line);
    s != [] && !(marker.Some? && StartsWith(s, marker.value))
  }

  /** The line test for one marker, as a value. */
  function CodeLineTest(marker: Option<string>): string -> bool
  {
    line => IsCodeLine(line, marker)
  }

  /** How many elements of `xs` satisfy `keep`, read front to back. */
  function CountWhere<T>(xs: seq<T>, keep: T -> bool): (n: nat)
    ensures n <= |xs|
  {
    if xs == [] then 0
    else CountWhere(xs[..|xs| - 1], keep) + (if keep(xs[|xs| - 1]) then 1 else 0)
  }

  /** The positions of the elements that satisfy `keep`. */
  function Positions<T>(xs: seq<T>, keep: T -> bool): set<int>
  {
    set i | 0 <= i < |xs| && keep(xs[i])
  }

  /** The number of code lines among `lines`: never more than the file has. */
  function CodeLineCount(lines: seq<string>, marker: Option<string>): (n: nat)
    ensures n <= |lines|
  {
    CountWhere(lines, CodeLineTest(marker))
  }

  /** What a file adds to its language's count: nothing when the read fails. */
  function FileLineCount(content: FileContent, marker: Option<string>): Option<nat>
  {
    match content
    case Read(lines) => Some(CodeLineCount(lines, marker))
    case ReadError(_) => None
  }

  /**
   * The file loop of the source: strip each line, skip blanks and lines that
   * start with the marker, count the rest; the count reaches the caller only
   * when the whole file was read.
   */
  method CountFileLines(content: FileContent, marker: Option<string>) returns (r: Option<nat>)
    ensures r == FileLineCount(content, marker)
  {
    var input := content.lines;
    var lines := 0;
    var i := 0;
    while i < |input|
      invariant 0 <= i <= |input|
      invariant lines == CodeLineCount(input[..i], marker)
    {
      var stripped := Strip(input[i]);
      if stripped != [] && !(marker.Some? && StartsWith(stripped, marker.value)) {
        lines := lines + 1;
      }
      assert input[..i + 1][..i] == input[..i];
      i := i + 1;
    }
    assert input[..i] == input;
    if content.ReadError? {
      r := None;
    } else {
      r := Some(lines);
    }
  }

  /** Counting agrees with the number of positions that satisfy the test. */
  lemma {:induction false} CountWhereIsPositions<T>(xs: seq<T>, keep: T -> bool)
    ensures CountWhere(xs, keep) == |Positions(xs, keep)|
  {
    if xs != [] {
      var n := |xs| - 1;
      var front := xs[..n];
      CountWhereIsPositions(front, keep);
      var after := Positions(xs, keep);
      var before := Positions(front, keep);
      assert n !in before;
      forall i | 0 <= i < n ensures (i in after) == (i in before) {
        assert front[i] == xs[i];
      }
      if keep(xs[n]) {
        assert after == before + {n};
      } else {
        assert after == before;
      }
    }
  }

  /** Counting is additive over concatenation. */
  lemma {:induction false} CountWhereAppend<T>(a: seq<T>, b: seq<T>, keep: T -> bool)
    ensures CountWhere(a + b, keep) == CountWhere(a, keep) + CountWhere(b, keep)
  {
    if b != [] {
      var n := |b| - 1;
      assert (a + b)[..|a + b| - 1] == a + b[..n];
      CountWhereAppend(a, b[..n], keep);
    } else {
      assert a + b == a;
    }
  }

  /** A weaker test never counts fewer elements. */
  lemma {:induction false} CountWhereMonotone<T>(xs: seq<T>, p: T -> bool, q: T -> bool)
    requires forall i :: 0 <= i < |xs| && p(xs[i]) ==> q(xs[i])
    ensures CountWhere(xs, p) <= CountWhere(xs, q)
  {
    if xs != [] {
      var n := |xs| - 1;
      assert forall i :: 0 <= i < n ==> xs[..n][i] == xs[i];
      CountWhereMonotone(xs[..n], p, q);
    }
  }

  /** Nothing is counted when no element satisfies the test. */
  lemma {:induction false} CountWhereNone<T>(xs: seq<T>, keep: T -> bool)
    requires forall i :: 0 <= i < |xs| ==> !keep(xs[i])
    ensures CountWhere(xs, keep) == 0
  {
    if xs != [] {
      var n := |xs| - 1;
      assert forall i :: 0 <= i < n ==> xs[..n][i] == xs[i];
      CountWhereNone(xs[..n], keep);
    }
  }

  /** The count is the number of positions holding a code line. */
  lemma CodeLineCountIsPositionCount(lines: seq<string>, marker: Option<string>)
    ensures CodeLineCount(lines, marker) == |set i | 0 <= i < |lines| && IsCodeLine(lines[i], marker)|
  {
    CountWhereIsPositions(lines, CodeLineTest(marker));
    assert Positions(lines, CodeLineTest(marker)) == set i | 0 <= i < |lines| && IsCodeLine(lines[i], marker);
  }

  /** Counting is additive over consecutive stretches of a file. */
  lemma CodeLineCountAppend(a: seq<string>, b: seq<string>, marker: Option<string>)
    ensures CodeLineCount(a + b, marker) == CodeLineCount(a, marker) + CodeLineCount(b, marker)
  {
    CountWhereAppend(a, b, CodeLineTest(marker));
  }

  /** Without a marker every non-blank line counts; a marker can only lower the count. */
  lemma MarkerOnlyLowersCount(lines: seq<string>, marker: string)
    ensures CodeLineCount(lines, Some(marker)) <= CodeLineCount(lines, None)
    ensures CodeLineCount(lines, None) == |set i | 0 <= i < |lines| && !AllSpace(lines[i])|
  {
    CountWhereMonotone(lines, CodeLineTest(Some(marker)), CodeLineTest(None));
    CountWhereIsPositions(lines, CodeLineTest(None));
    forall i | 0 <= i < |lines| ensures IsCodeLine(lines[i], None) <==> !AllSpace(lines[i]) {
      StripEmptyIffAllSpace(lines[i]);
    }
    assert Positions(lines, CodeLineTest(None)) == set i | 0 <= i < |lines| && !AllSpace(lines[i]);
  }

  /** A file whose every line is blank or a comment counts zero lines. */
  lemma CommentsOnlyCountZero(lines: seq<string>, marker: string)
    requires forall i :: 0 <= i < |lines| ==> AllSpace(lines[i]) || StartsWith(Strip(lines[i]), marker)
    ensures CodeLineCount(lines, Some(marker)) == 0
  {
    forall i | 0 <= i < |lines| ensures !IsCodeLine(lines[i], Some(marker)) {
      StripEmptyIffAllSpace(lines[i]);
    }
    CountWhereNone(lines, CodeLineTest(Some(marker)));
  }

  /**
   * The test is on the stripped line's prefix only: code followed by a
   * trailing comment counts, however it is indented and however much
   * whitespace separates the code from the marker (`x = 1  # note`), and also
   * when the code shares the marker's first characters (`(f x)` under `(*`),
   * as long as it does not begin with the marker itself.
   */
  lemma TrailingCommentCounts(indent: string, code: string, marker: string, comment: string)
    requires AllSpace(indent)
    requires code != [] && !IsSpace(code[0])
    requires marker != [] && !IsSpace(marker[|marker| - 1])
    requires !StartsWith(code + marker, marker)
    ensures IsCodeLine(indent + code + marker + comment, Some(marker))
  {
    StripKeepsCore(indent, code + marker, comment);
    assert indent + (code + marker) + comment == indent + code + marker + comment;
  }

  lemma IndentedCommentSkipped(indent: string, marker: string, comment: string)
    requires AllSpace(indent)
    requires marker != [] && !IsSpace(marker[0]) && !IsSpace(marker[|marker| - 1])
    ensures !IsCodeLine(indent + marker + comment, Some(marker))
  {
    StripKeepsCore(indent, marker, comment);
  }
}
