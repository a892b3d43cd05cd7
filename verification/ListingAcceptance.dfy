/** Exactly which texts are listings: every accepted text is spelled entry by entry, and nothing else is accepted. */
module ListingAcceptance {
  import opened Wrappers
  import opened IndexListings

  // ---- cuts ---------------------------------------------------------------------------------------------------------

  lemma {:induction false} CutMeans(s: string, c: char, a: string, b: string)
    ensures CutAt(s, c) == Some((a, b)) <==> c !in a && s == a + ([c] + b)
    decreases |s|
  {
    if c !in a && s == a + ([c] + b) {
      CutAtFirst(a, c, b);
    }
    if CutAt(s, c) == Some((a, b)) {
      CutIsSpelled(s, c);
    }
  }

  lemma {:induction false} CutIsSpelled(s: string, c: char)
    requires CutAt(s, c).Some?
    ensures var (a, b) := CutAt(s, c).value; c !in a && s == a + ([c] + b)
    decreases |s|
  {
    if s[0] == c {
      assert s == [] + ([c] + s[1..]);
    } else {
      CutIsSpelled(s[1..], c);
      var (a, b) := CutAt(s[1..], c).value;
      assert s == [s[0]] + s[1..];
      assert [s[0]] + (a + ([c] + b)) == ([s[0]] + a) + ([c] + b);
    }
  }

  predicate OneLines(lines: seq<string>) {
    forall k :: 0 <= k < |lines| ==> '\n' !in lines[k]
  }

  lemma {:induction false} LinesMean(s: string, n: nat, lines: seq<string>, rest: string)
    ensures TakeLines(s, n) == Some((lines, rest)) <==> |lines| == n && OneLines(lines) && s == JoinLines(lines, rest)
    decreases n
  {
    if |lines| == n && OneLines(lines) && s == JoinLines(lines, rest) {
      LinesAreTaken(lines, rest);
    }
    if TakeLines(s, n) == Some((lines, rest)) && n > 0 {
      CutIsSpelled(s, '\n');
      var (first, more) := CutAt(s, '\n').value;
      LinesMean(more, n - 1, lines[1..], rest);
      assert lines == [first] + lines[1..];
    }
  }

  // ---- one entry ------------------------------------------------------------------------------------------------------

  /** Two numbers behind a title. */
  predicate Spells(line: string, title: string, x: string, between: string, y: string, base: nat)
    requires base <= 16
  {
    line == title + (x + (between + y)) && IsNumber(x, 10) && IsNumber(y, base)
  }

  ghost predicate SpellsNumbers(line: string, title: string, between: string, base: nat, a: nat, b: nat)
    requires base <= 16
  {
    exists x, y :: Spells(line, title, x, between, y, base) && ValueOf(x, 10) == a && ValueOf(y, base) == b
  }

  lemma LabelledMeans(line: string, title: string, between: string, base: nat, a: nat, b: nat)
    requires base <= 16 && between != [] && !IsDigit(between[0], 10)
    ensures Labelled(line, title, between, base) == Some((a, b)) <==> SpellsNumbers(line, title, between, base, a, b)
  {
    if Labelled(line, title, between, base) == Some((a, b)) {
      var s := line[|title|..];
      var n := DigitRun(s);
      var rest := s[n..];
      var x, y := s[..n], rest[|between|..];
      assert line == title + s && s == x + rest && rest == between + y;
      assert Spells(line, title, x, between, y, base);
    }
    if SpellsNumbers(line, title, between, base, a, b) {
      var x, y :| Spells(line, title, x, between, y, base) && ValueOf(x, 10) == a && ValueOf(y, base) == b;
      SpelledIsLabelled(line, title, x, between, y, base);
    }
  }

  lemma SpelledIsLabelled(line: string, title: string, x: string, between: string, y: string, base: nat)
    requires base <= 16 && between != [] && !IsDigit(between[0], 10) && Spells(line, title, x, between, y, base)
    ensures Labelled(line, title, between, base) == Some((ValueOf(x, 10), ValueOf(y, base)))
  {
    var s := x + (between + y);
    assert line[..|title|] == title && line[|title|..] == s;
    RunOfNumber(x, between + y);
    assert s[..|x|] == x && s[|x|..] == between + y && (between + y)[|between|..] == y;
  }

  ghost predicate SpellsTime(line: string, time: (nat, nat)) {
    || SpellsNumbers(line, "  ctime: ", ":", 10, time.0, time.1)
    || SpellsNumbers(line, "  mtime: ", ":", 10, time.0, time.1)
  }

  lemma TimeMeans(line: string, time: (nat, nat))
    ensures TimeOn(line) == Some(time) <==> SpellsTime(line, time)
  {
    LabelledMeans(line, "  ctime: ", ":", 10, time.0, time.1);
    LabelledMeans(line, "  mtime: ", ":", 10, time.0, time.1);
    OneTitle(line);
  }

  lemma OneTitle(line: string)
    ensures Labelled(line, "  ctime: ", ":", 10).None? || Labelled(line, "  mtime: ", ":", 10).None?
  {
    assert "  ctime: "[2] == 'c' && "  mtime: "[2] == 'm';
  }

  /** The words of a head between single spaces: mode, object and stage. */
  ghost predicate SpellsHead(octal: string -> Option<nat>, head: string, e: IndexEntry) {
    exists mode, stage :: ' ' !in mode && ' ' !in stage && head == mode + ([' '] + (e.oid + ([' '] + stage)))
      && octal(mode) == Some(e.mode) && IsOid(e.oid) && IsStage(stage) && stage[0] as int - '0' as int == e.stage
  }

  ghost predicate SpellsLines(lines: seq<string>, e: IndexEntry)
    requires |lines| == 5
  {
    && SpellsTime(lines[0], e.ctime) && SpellsTime(lines[1], e.mtime)
    && SpellsNumbers(lines[2], "  dev: ", "\tino: ", 10, e.dev, e.ino)
    && SpellsNumbers(lines[3], "  uid: ", "\tgid: ", 10, e.uid, e.gid)
    && SpellsNumbers(lines[4], "  size: ", "\tflags: ", 16, e.size, e.flags)
  }

  /** The text begins with an entry: head, path and five lines. */
  ghost predicate SpellsEntry(octal: string -> Option<nat>, s: string, e: IndexEntry, rest: string) {
    exists head, lines :: |lines| == 5 && '\t' !in head && '\0' !in e.path && OneLines(lines)
      && s == head + (['\t'] + (e.path + (['\0'] + JoinLines(lines, rest))))
      && SpellsHead(octal, head, e) && SpellsLines(lines, e)
  }

  lemma OidHasNoSpace(oid: string)
    requires IsOid(oid)
    ensures ' ' !in oid
  {
  }

  lemma SplitAtFirst(s: string, words: seq<string>)
    requires SplitSpaces(s) == words && |words| > 1
    ensures CutAt(s, ' ').Some? && words[0] == CutAt(s, ' ').value.0 && SplitSpaces(CutAt(s, ' ').value.1) == words[1..]
  {
  }

  lemma SplitIsSomething(s: string)
    ensures |SplitSpaces(s)| > 0
  {
  }

  lemma ThreeAreSpelled(head: string, m: string, o: string, t: string)
    requires SplitSpaces(head) == [m, o, t]
    ensures ' ' !in m && ' ' !in o && ' ' !in t && head == m + ([' '] + (o + ([' '] + t)))
  {
    SplitAtFirst(head, [m, o, t]);
    CutIsSpelled(head, ' ');
    var rest := CutAt(head, ' ').value.1;
    assert [m, o, t][1..] == [o, t];
    SplitAtFirst(rest, [o, t]);
    CutIsSpelled(rest, ' ');
    assert [o, t][1..] == [t];
    OnePiece(CutAt(rest, ' ').value.1, t);
  }

  lemma OnePiece(s: string, t: string)
    requires SplitSpaces(s) == [t]
    ensures s == t && ' ' !in t
  {
    SplitIsSomething(if CutAt(s, ' ').Some? then CutAt(s, ' ').value.1 else "");
    NoneMeans(s, ' ');
  }

  lemma {:induction false} NoneMeans(s: string, c: char)
    ensures CutAt(s, c).None? <==> c !in s
    decreases |s|
  {
    if s != [] {
      NoneMeans(s[1..], c);
      assert s == [s[0]] + s[1..];
    }
  }

  predicate HasFields(octal: string -> Option<nat>, words: seq<string>, e: IndexEntry) {
    && |words| == 3 && octal(words[0]) == Some(e.mode) && words[1] == e.oid && IsOid(e.oid)
    && IsStage(words[2]) && words[2][0] as int - '0' as int == e.stage
  }

  lemma HeadMeans(octal: string -> Option<nat>, head: string, e: IndexEntry)
    ensures SpellsHead(octal, head, e) <==> HasFields(octal, SplitSpaces(head), e)
  {
    var words := SplitSpaces(head);
    if HasFields(octal, words, e) {
      assert words == [words[0], words[1], words[2]];
      ThreeAreSpelled(head, words[0], words[1], words[2]);
    }
    if SpellsHead(octal, head, e) {
      var mode, stage :| ' ' !in mode && ' ' !in stage && head == mode + ([' '] + (e.oid + ([' '] + stage)))
        && octal(mode) == Some(e.mode) && IsOid(e.oid) && IsStage(stage) && stage[0] as int - '0' as int == e.stage;
      OidHasNoSpace(e.oid);
      ThreePieces(mode, e.oid, stage);
    }
  }

  lemma EntryHas(octal: string -> Option<nat>, words: seq<string>, lines: seq<string>, e: IndexEntry)
    requires |lines| == 5
    ensures EntryFrom(octal, words, e.path, lines) == Some(e) <==> HasFields(octal, words, e) && ReadsAs(lines, e)
  {
  }

  lemma LinesSpell(lines: seq<string>, e: IndexEntry)
    requires |lines| == 5
    ensures ReadsAs(lines, e) <==> SpellsLines(lines, e)
  {
    TimeMeans(lines[0], e.ctime);
    TimeMeans(lines[1], e.mtime);
    LabelledMeans(lines[2], "  dev: ", "\tino: ", 10, e.dev, e.ino);
    LabelledMeans(lines[3], "  uid: ", "\tgid: ", 10, e.uid, e.gid);
    LabelledMeans(lines[4], "  size: ", "\tflags: ", 16, e.size, e.flags);
  }

  lemma EntryFromMeans(octal: string -> Option<nat>, head: string, lines: seq<string>, e: IndexEntry)
    requires |lines| == 5
    ensures EntryFrom(octal, SplitSpaces(head), e.path, lines) == Some(e) <==> SpellsHead(octal, head, e) && SpellsLines(lines, e)
  {
    HeadMeans(octal, head, e);
    EntryHas(octal, SplitSpaces(head), lines, e);
    LinesSpell(lines, e);
  }

  lemma ParseOneMeans(octal: string -> Option<nat>, s: string, e: IndexEntry, rest: string)
    ensures ParseOne(octal, s) == Some((e, rest)) <==> SpellsEntry(octal, s, e, rest)
  {
    if ParseOne(octal, s) == Some((e, rest)) {
      var (head, below) := CutAt(s, '\t').value;
      var (path, behind) := CutAt(below, '\0').value;
      var lines := TakeLines(behind, 5).value.0;
      CutIsSpelled(s, '\t');
      CutIsSpelled(below, '\0');
      LinesMean(behind, 5, lines, rest);
      EntryFromMeans(octal, head, lines, e);
    }
    if SpellsEntry(octal, s, e, rest) {
      var head, lines :| |lines| == 5 && '\t' !in head && '\0' !in e.path && OneLines(lines)
        && s == head + (['\t'] + (e.path + (['\0'] + JoinLines(lines, rest))))
        && SpellsHead(octal, head, e) && SpellsLines(lines, e);
      var behind := JoinLines(lines, rest);
      var below := e.path + (['\0'] + behind);
      CutMeans(s, '\t', head, below);
      CutMeans(below, '\0', e.path, behind);
      LinesMean(behind, 5, lines, rest);
      EntryFromMeans(octal, head, lines, e);
      EntryOfParts(octal, s, head, below, behind, lines, e, rest);
    }
  }

  // ---- the whole listing ----------------------------------------------------------------------------------------------

  ghost predicate SpellsListing(octal: string -> Option<nat>, s: string, entries: seq<IndexEntry>)
    decreases |entries|
  {
    if entries == [] then s == ""
    else exists rest :: SpellsEntry(octal, s, entries[0], rest) && SpellsListing(octal, rest, entries[1..])
  }

  lemma ParseBegins(octal: string -> Option<nat>, s: string, entries: seq<IndexEntry>) returns (rest: string)
    requires Parse(octal, s) == Some(entries) && entries != []
    ensures ParseOne(octal, s) == Some((entries[0], rest)) && Parse(octal, rest) == Some(entries[1..])
  {
    rest := ParseOne(octal, s).value.1;
  }

  /** A text is read as these entries exactly if it spells them one after the other, with nothing left over. */
  lemma {:induction false} AcceptsExactly(octal: string -> Option<nat>, s: string, entries: seq<IndexEntry>)
    ensures Parse(octal, s) == Some(entries) <==> SpellsListing(octal, s, entries)
    decreases |entries|
  {
    if entries == [] {
      NothingSpelled(octal, s);
    } else if Parse(octal, s) == Some(entries) {
      var rest := ParseBegins(octal, s, entries);
      ParseOneMeans(octal, s, entries[0], rest);
      AcceptsExactly(octal, rest, entries[1..]);
    } else if SpellsListing(octal, s, entries) {
      var rest := ListingBegins(octal, s, entries);
      ParseOneMeans(octal, s, entries[0], rest);
      AcceptsExactly(octal, rest, entries[1..]);
      ParsedOn(octal, s, entries[0], rest, entries[1..]);
    }
  }

  lemma ListingBegins(octal: string -> Option<nat>, s: string, entries: seq<IndexEntry>) returns (rest: string)
    requires SpellsListing(octal, s, entries) && entries != []
    ensures SpellsEntry(octal, s, entries[0], rest) && SpellsListing(octal, rest, entries[1..])
    ensures [entries[0]] + entries[1..] == entries
  {
    rest :| SpellsEntry(octal, s, entries[0], rest) && SpellsListing(octal, rest, entries[1..]);
  }

  lemma NothingSpelled(octal: string -> Option<nat>, s: string)
    ensures Parse(octal, s) == Some([]) <==> s == ""
  {
  }
}
