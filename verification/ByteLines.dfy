/** Bytes, and the lines that a file of complete and torn records is made of. */
module ByteLines {

  type Byte = b: int | 0 <= b < 256
  type Bytes = seq<Byte>

  const NEWLINE: Byte := 10
  const CARRIAGE_RETURN: Byte := 13

  /** Empty, or ending with a newline. */
  predicate Closed(s: Bytes) {
    s == [] || s[|s| - 1] == NEWLINE
  }

  predicate OneLine(s: Bytes) {
    forall k :: 0 <= k < |s| ==> s[k] != NEWLINE && s[k] != CARRIAGE_RETURN
  }

  /** How much of `s` is complete lines: one more than the position of the last newline, or nothing. */
  function CompleteLength(s: Bytes): (n: nat)
    ensures n <= |s| && Closed(s[..n]) && NEWLINE !in s[n..]
  {
    if Closed(s) then |s| else
      var n := CompleteLength(s[..|s| - 1]);
      assert s[n..] == s[..|s| - 1][n..] + [s[|s| - 1]];
      assert s[..|s| - 1][..n] == s[..n];
      n
  }

  /** The complete lines of `s`. */
  function CompletePart(s: Bytes): Bytes {
    s[..CompleteLength(s)]
  }

  lemma {:induction false} CompleteLengthIsUnique(s: Bytes, n: nat)
    requires n <= |s| && Closed(s[..n]) && NEWLINE !in s[n..]
    ensures CompleteLength(s) == n
    decreases |s|
  {
    if n == |s| {
      assert s[..n] == s;
    } else {
      var init := s[..|s| - 1];
      assert s[|s| - 1] == s[n..][|s| - 1 - n];
      assert init[..n] == s[..n];
      assert forall k :: 0 <= k < |init[n..]| ==> init[n..][k] == s[n..][k];
      CompleteLengthIsUnique(init, n);
    }
  }

  /** A closed part, and a rest without a newline. */
  lemma CompleteLengthOf(done: Bytes, rest: Bytes)
    requires Closed(done) && NEWLINE !in rest
    ensures CompleteLength(done + rest) == |done| && (done + rest)[|done|..] == rest
  {
    assert (done + rest)[..|done|] == done;
    CompleteLengthIsUnique(done + rest, |done|);
  }

  /** Where the first line of `s` ends. */
  function LineEnd(s: Bytes): (n: nat)
    ensures n <= |s| && OneLine(s[..n]) && (n < |s| ==> s[n] == NEWLINE || s[n] == CARRIAGE_RETURN)
  {
    if s == [] || s[0] == NEWLINE || s[0] == CARRIAGE_RETURN then 0 else 1 + LineEnd(s[1..])
  }

  /** The length of the break that ends it: CR LF is one break. */
  function BreakLength(s: Bytes, n: nat): (k: nat)
    requires n <= |s|
    ensures n + k <= |s| && (n < |s| ==> k > 0)
  {
    if n == |s| then 0
    else if s[n] == CARRIAGE_RETURN && n + 1 < |s| && s[n + 1] == NEWLINE then 2
    else 1
  }

  /** Lines without their breaks, as `bytes.splitlines` gives them. */
  function SplitLines(s: Bytes): seq<Bytes> {
    if s == [] then []
    else
      var n := LineEnd(s);
      [s[..n]] + SplitLines(s[n + BreakLength(s, n)..])
  }

  lemma {:induction false} LineEndIsFirst(s: Bytes, n: nat)
    requires n <= |s| && OneLine(s[..n]) && (n < |s| ==> s[n] == NEWLINE || s[n] == CARRIAGE_RETURN)
    ensures LineEnd(s) == n
    decreases n
  {
    if n > 0 {
      assert s[0] == s[..n][0];
      assert s[1..][..n - 1] == s[..n][1..];
      LineEndIsFirst(s[1..], n - 1);
    }
  }

  lemma SplitOneLine(s: Bytes)
    requires OneLine(s)
    ensures SplitLines(s + [NEWLINE]) == [s]
  {
    assert (s + [NEWLINE])[..|s|] == s;
    LineEndIsFirst(s + [NEWLINE], |s|);
  }

  lemma {:induction false} LineEndsInside(a: Bytes)
    requires a != [] && Closed(a)
    ensures LineEnd(a) < |a|
    decreases |a|
  {
    if a[0] != NEWLINE && a[0] != CARRIAGE_RETURN {
      LineEndsInside(a[1..]);
    }
  }

  lemma FirstLineStays(a: Bytes, b: Bytes)
    requires a != [] && Closed(a)
    ensures LineEnd(a) < |a| && LineEnd(a + b) == LineEnd(a) && (a + b)[..LineEnd(a)] == a[..LineEnd(a)]
    ensures BreakLength(a + b, LineEnd(a)) == BreakLength(a, LineEnd(a))
  {
    LineEndsInside(a);
    assert (a + b)[..LineEnd(a)] == a[..LineEnd(a)];
    LineEndIsFirst(a + b, LineEnd(a));
  }

  /** A first line, and what stands behind its break. */
  predicate FirstIs(s: Bytes, line: Bytes, rest: Bytes) {
    s != [] && line == s[..LineEnd(s)] && rest == s[LineEnd(s) + BreakLength(s, LineEnd(s))..]
  }

  lemma SplitStep(s: Bytes, line: Bytes, rest: Bytes)
    requires FirstIs(s, line, rest)
    ensures SplitLines(s) == [line] + SplitLines(rest)
  {
  }

  /** The first line and its break are cut off before and after something is appended. */
  lemma BreakIsCut(a: Bytes, b: Bytes, line: Bytes, rest: Bytes)
    requires a != [] && Closed(a) && FirstIs(a, line, rest)
    ensures FirstIs(a + b, line, rest + b)
  {
    FirstLineStays(a, b);
    var m := LineEnd(a) + BreakLength(a, LineEnd(a));
    assert (a + b)[m..] == a[m..] + b;
  }

  /** What holds behind a first line and its break holds with them. */
  lemma BehindBreak(a: Bytes, b: Bytes, line: Bytes, rest: Bytes)
    requires FirstIs(a, line, rest) && FirstIs(a + b, line, rest + b)
    requires SplitLines(rest + b) == SplitLines(rest) + SplitLines(b)
    ensures SplitLines(a + b) == SplitLines(a) + SplitLines(b)
  {
    SplitStep(a, line, rest);
    SplitStep(a + b, line, rest + b);
    Regroup([line], SplitLines(rest), SplitLines(b));
  }

  lemma Regroup(first: seq<Bytes>, rest: seq<Bytes>, more: seq<Bytes>)
    ensures first + (rest + more) == (first + rest) + more
  {
  }

  /** Reading a file in pieces that end with a newline, or at once, gives the same lines. */
  lemma {:induction false} SplitConcat(a: Bytes, b: Bytes)
    requires Closed(a)
    ensures SplitLines(a + b) == SplitLines(a) + SplitLines(b)
    decreases |a|
  {
    if a == [] {
      assert a + b == b;
    } else {
      var line, rest := a[..LineEnd(a)], a[LineEnd(a) + BreakLength(a, LineEnd(a))..];
      BreakIsCut(a, b, line, rest);
      SplitConcat(rest, b);
      BehindBreak(a, b, line, rest);
    }
  }

  // ---- lines that end with a newline only -----------------------------------------------------------------

  /** The length of the first line of a file, with its newline if it has one. */
  function FirstLine(s: Bytes): (n: nat)
    ensures n <= |s| && (s != [] ==> n > 0)
    ensures n > 0 ==> NEWLINE !in s[..n - 1] && (n < |s| ==> s[n - 1] == NEWLINE)
  {
    if s == [] then 0 else if s[0] == NEWLINE then 1 else 1 + FirstLine(s[1..])
  }

  /** The lines of a file opened for reading bytes, each with its newline. */
  function FileLines(s: Bytes): seq<Bytes> {
    if s == [] then [] else [s[..FirstLine(s)]] + FileLines(s[FirstLine(s)..])
  }

  lemma {:induction false} FirstLineIsInside(a: Bytes, b: Bytes)
    requires a != [] && Closed(a)
    ensures FirstLine(a + b) == FirstLine(a)
    decreases |a|
  {
    if a[0] != NEWLINE {
      assert (a + b)[1..] == a[1..] + b;
      FirstLineIsInside(a[1..], b);
    }
  }

  /** The first line is cut off before and after something is appended. */
  lemma FirstLineIsCut(a: Bytes, b: Bytes, n: nat)
    requires a != [] && n == FirstLine(a) == FirstLine(a + b)
    ensures FileLines(a) == [a[..n]] + FileLines(a[n..])
    ensures FileLines(a + b) == [a[..n]] + FileLines(a[n..] + b)
  {
    assert (a + b)[..n] == a[..n] && (a + b)[n..] == a[n..] + b;
  }

  /** What holds behind a first line holds with it. */
  lemma BehindFirstLine(a: Bytes, b: Bytes, n: nat)
    requires a != [] && n == FirstLine(a) == FirstLine(a + b)
    requires FileLines(a[n..] + b) == FileLines(a[n..]) + FileLines(b)
    ensures FileLines(a + b) == FileLines(a) + FileLines(b)
  {
    FirstLineIsCut(a, b, n);
    Regroup([a[..n]], FileLines(a[n..]), FileLines(b));
  }

  lemma {:induction false} FileLinesConcat(a: Bytes, b: Bytes)
    requires Closed(a)
    ensures FileLines(a + b) == FileLines(a) + FileLines(b)
    decreases |a|
  {
    if a == [] {
      assert a + b == b;
    } else {
      FirstLineIsInside(a, b);
      FileLinesConcat(a[FirstLine(a)..], b);
      BehindFirstLine(a, b, FirstLine(a));
    }
  }

  lemma {:induction false} LineOfItsOwn(line: Bytes)
    requires line != [] && NEWLINE !in line[..|line| - 1]
    ensures FirstLine(line) == |line|
    decreases |line|
  {
    if |line| > 1 {
      assert line[0] == line[..|line| - 1][0];
      assert line[1..][..|line| - 2] == line[..|line| - 1][1..];
      LineOfItsOwn(line[1..]);
    }
  }

  /** A file that is one line, ended or not. */
  lemma OneFileLine(line: Bytes)
    requires line != [] && NEWLINE !in line[..|line| - 1]
    ensures FileLines(line) == [line]
  {
    LineOfItsOwn(line);
    assert line[..|line|] == line;
  }
}
