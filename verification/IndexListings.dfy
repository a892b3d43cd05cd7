/**
  The index listing of `git ls-files -s -z --debug`, printed and parsed. A byte is a character below 256 here, and a
  path is its bytes: anything but NUL, tabs and newlines included.
*/
module IndexListings {
  import opened Wrappers

  datatype IndexEntry = IndexEntry(
    mode: nat, oid: string, stage: nat, path: string, ctime: (nat, nat), mtime: (nat, nat),
    dev: nat, ino: nat, uid: nat, gid: nat, size: nat, flags: nat)

  // ---- numbers ------------------------------------------------------------------------------------------------

  function Digit(d: nat): char
    requires d < 16
  {
    "0123456789abcdef"[d]
  }

  const NO_DIGIT := 99

  function DigitOf(c: char): nat {
    if '0' <= c <= '9' then c as int - 48 else if 'a' <= c <= 'f' then c as int - 87 else NO_DIGIT
  }

  predicate IsDigit(c: char, base: nat) {
    DigitOf(c) < base
  }

  predicate IsNumber(s: string, base: nat) {
    s != [] && forall k :: 0 <= k < |s| ==> IsDigit(s[k], base)
  }

  function Print(n: nat, base: nat): (s: string)
    requires 2 <= base <= 16
    ensures s != []
    decreases n
  {
    if n < base then [Digit(n)] else Print(n / base, base) + [Digit(n % base)]
  }

  /** Octal, at least six digits wide. */
  function PrintMode(n: nat): string {
    Padded(Print(n, 8))
  }

  function Padded(s: string): string
    decreases 6 - |s|
  {
    if |s| < 6 then Padded("0" + s) else s
  }

  function ValueOf(s: string, base: nat): nat
  {
    if s == [] then 0 else ValueOf(s[..|s| - 1], base) * base + DigitOf(s[|s| - 1])
  }

  lemma DigitIsDigit(d: nat, base: nat)
    requires d < base <= 16
    ensures IsDigit(Digit(d), base) && DigitOf(Digit(d)) == d
  {
  }

  lemma DividesBack(n: nat, base: nat)
    requires base > 0
    ensures (n / base) * base + n % base == n
  {
  }

  lemma OneMoreDigit(s: string, d: nat, base: nat)
    requires d < base <= 16 && IsNumber(s, base)
    ensures IsNumber(s + [Digit(d)], base) && ValueOf(s + [Digit(d)], base) == ValueOf(s, base) * base + d
  {
    DigitIsDigit(d, base);
    assert (s + [Digit(d)])[..|s|] == s;
  }

  /** The last digit of a number of several digits. */
  lemma PrintEndsIn(n: nat, base: nat) returns (high: nat, low: nat)
    requires 2 <= base <= 16 && n >= base
    ensures high < n && low < base && high * base + low == n
    ensures Print(n, base) == Print(high, base) + [Digit(low)]
  {
    high, low := n / base, n % base;
    DividesBack(n, base);
  }

  lemma {:induction false} PrintIsNumber(n: nat, base: nat)
    requires 2 <= base <= 16
    ensures IsNumber(Print(n, base), base) && ValueOf(Print(n, base), base) == n
    decreases n
  {
    if n < base {
      DigitIsDigit(n, base);
      assert Print(n, base)[..0] == [];
    } else {
      var high, low := PrintEndsIn(n, base);
      PrintIsNumber(high, base);
      OneMoreDigit(Print(high, base), low, base);
    }
  }

  lemma {:induction false} ZeroInFront(s: string, base: nat)
    requires 2 <= base <= 16 && IsNumber(s, base)
    ensures IsNumber("0" + s, base) && ValueOf("0" + s, base) == ValueOf(s, base)
    decreases |s|
  {
    var t := "0" + s;
    if |s| == 1 {
      assert t[..1] == "0" && "0"[..0] == [] && s[..0] == [];
      assert ValueOf("0", base) == 0;
    } else {
      assert IsNumber(s[..|s| - 1], base);
      ZeroInFront(s[..|s| - 1], base);
      assert t[..|t| - 1] == "0" + s[..|s| - 1];
    }
  }

  lemma {:induction false} PaddedIsNumber(s: string)
    requires IsNumber(s, 8)
    ensures IsNumber(Padded(s), 8) && ValueOf(Padded(s), 8) == ValueOf(s, 8)
    decreases 6 - |s|
  {
    if |s| < 6 {
      ZeroInFront(s, 8);
      PaddedIsNumber("0" + s);
    }
  }

  // ---- cutting ------------------------------------------------------------------------------------------------

  /** What comes before the first `c`, and after it. */
  function CutAt(s: string, c: char): (r: Option<(string, string)>)
    ensures r.Some? ==> |r.value.0| + 1 + |r.value.1| == |s|
  {
    if s == [] then None
    else if s[0] == c then Some(([], s[1..]))
    else
      var rest := CutAt(s[1..], c);
      if rest.None? then None else Some(([s[0]] + rest.value.0, rest.value.1))
  }

  lemma {:induction false} CutAtFirst(a: string, c: char, b: string)
    requires c !in a
    ensures CutAt(a + ([c] + b), c) == Some((a, b))
    decreases |a|
  {
    var s := a + ([c] + b);
    if a == [] {
      assert s == [c] + b;
    } else {
      assert s[0] == a[0] && a[0] in a && s[1..] == a[1..] + ([c] + b);
      CutAtFirst(a[1..], c, b);
      assert [a[0]] + a[1..] == a;
    }
  }

  /** The pieces between single spaces. */
  function SplitSpaces(s: string): seq<string>
    decreases |s|
  {
    var cut := CutAt(s, ' ');
    if cut.None? then [s] else [cut.value.0] + SplitSpaces(cut.value.1)
  }

  lemma {:induction false} NoCut(s: string, c: char)
    requires c !in s
    ensures CutAt(s, c).None?
    decreases |s|
  {
    if s != [] {
      NoCut(s[1..], c);
    }
  }

  lemma ThreePieces(a: string, b: string, c: string)
    requires ' ' !in a && ' ' !in b && ' ' !in c
    ensures SplitSpaces(a + ([' '] + (b + ([' '] + c)))) == [a, b, c]
  {
    CutAtFirst(a, ' ', b + ([' '] + c));
    CutAtFirst(b, ' ', c);
    NoCut(c, ' ');
    assert SplitSpaces(c) == [c];
    assert SplitSpaces(b + ([' '] + c)) == [b, c];
  }

  // ---- one debug line -------------------------------------------------------------------------------------------

  function DigitRun(s: string): (n: nat)
    ensures n <= |s| && (forall k :: 0 <= k < n ==> IsDigit(s[k], 10)) && (n < |s| ==> !IsDigit(s[n], 10))
  {
    if s == [] || !IsDigit(s[0], 10) then 0 else 1 + DigitRun(s[1..])
  }

  /** A decimal number, a text between, and a number to the end. */
  function TwoNumbers(s: string, between: string, base: nat): Option<(nat, nat)>
    requires base <= 16
  {
    var n := DigitRun(s);
    var rest := s[n..];
    if n == 0 || !(between <= rest) || !IsNumber(rest[|between|..], base) then None
    else Some((ValueOf(s[..n], 10), ValueOf(rest[|between|..], base)))
  }

  function Labelled(line: string, title: string, between: string, base: nat): Option<(nat, nat)>
    requires base <= 16
  {
    if title <= line then TwoNumbers(line[|title|..], between, base) else None
  }

  function TimeOn(line: string): Option<(nat, nat)> {
    var ctime := Labelled(line, "  ctime: ", ":", 10);
    if ctime.Some? then ctime else Labelled(line, "  mtime: ", ":", 10)
  }

  function PrintLine(title: string, a: nat, between: string, b: nat, base: nat): string
    requires 2 <= base <= 16
  {
    title + (Print(a, 10) + (between + Print(b, base)))
  }

  lemma {:induction false} RunOfNumber(a: string, rest: string)
    requires (forall k :: 0 <= k < |a| ==> IsDigit(a[k], 10)) && rest != [] && !IsDigit(rest[0], 10)
    ensures DigitRun(a + rest) == |a|
    decreases |a|
  {
    var s := a + rest;
    if a == [] {
      assert s == rest;
    } else {
      assert s[0] == a[0] && s[1..] == a[1..] + rest;
      RunOfNumber(a[1..], rest);
    }
  }

  lemma LineIsRead(title: string, a: nat, between: string, b: nat, base: nat)
    requires 2 <= base <= 16 && between != [] && !IsDigit(between[0], 10)
    ensures Labelled(PrintLine(title, a, between, b, base), title, between, base) == Some((a, b))
  {
    var first, second := Print(a, 10), Print(b, base);
    var line := PrintLine(title, a, between, b, base);
    PrintIsNumber(a, 10);
    PrintIsNumber(b, base);
    assert line[|title|..] == first + (between + second);
    RunOfNumber(first, between + second);
    assert (first + (between + second))[|first|..] == between + second;
    assert (first + (between + second))[..|first|] == first;
    assert (between + second)[|between|..] == second;
  }

  // ---- one entry --------------------------------------------------------------------------------------------------

  predicate IsOid(s: string) {
    (|s| == 40 || |s| == 64) && forall k :: 0 <= k < |s| ==> IsDigit(s[k], 16)
  }

  predicate IsStage(s: string) {
    |s| == 1 && '0' <= s[0] <= '3'
  }

  /** `octal` is how the mode is read: plain digits by their value, and anything else in whatever way. */
  ghost predicate ReadsOctal(octal: string -> Option<nat>) {
    forall s :: IsNumber(s, 8) ==> octal(s) == Some(ValueOf(s, 8))
  }

  function HeadOf(e: IndexEntry): string {
    PrintMode(e.mode) + ([' '] + (e.oid + ([' '] + Print(e.stage, 10))))
  }

  /** The five debug lines. */
  function DebugOf(e: IndexEntry): seq<string> {
    [PrintLine("  ctime: ", e.ctime.0, ":", e.ctime.1, 10), PrintLine("  mtime: ", e.mtime.0, ":", e.mtime.1, 10),
     PrintLine("  dev: ", e.dev, "\tino: ", e.ino, 10), PrintLine("  uid: ", e.uid, "\tgid: ", e.gid, 10),
     PrintLine("  size: ", e.size, "\tflags: ", e.flags, 16)]
  }

  function JoinLines(lines: seq<string>, rest: string): string {
    if lines == [] then rest else lines[0] + (['\n'] + JoinLines(lines[1..], rest))
  }

  /** The entry as it is listed, with what follows it. */
  function Listed(e: IndexEntry, rest: string): string {
    HeadOf(e) + (['\t'] + (e.path + (['\0'] + JoinLines(DebugOf(e), rest))))
  }

  function Listing(entries: seq<IndexEntry>): string {
    if entries == [] then "" else Listed(entries[0], Listing(entries[1..]))
  }

  /** `n` lines, and what follows them. */
  function TakeLines(s: string, n: nat): (r: Option<(seq<string>, string)>)
    ensures r.Some? ==> |r.value.0| == n && |r.value.1| <= |s|
    decreases n
  {
    if n == 0 then Some(([], s))
    else
      var cut := CutAt(s, '\n');
      if cut.None? then None
      else
        var rest := TakeLines(cut.value.1, n - 1);
        if rest.None? then None else Some(([cut.value.0] + rest.value.0, rest.value.1))
  }

  function EntryFrom(octal: string -> Option<nat>, head: seq<string>, path: string, lines: seq<string>): Option<IndexEntry>
    requires |lines| == 5
  {
    if |head| != 3 || !IsOid(head[1]) || !IsStage(head[2]) || octal(head[0]).None? then None
    else
      var ctime, mtime := TimeOn(lines[0]), TimeOn(lines[1]);
      var devIno := Labelled(lines[2], "  dev: ", "\tino: ", 10);
      var uidGid := Labelled(lines[3], "  uid: ", "\tgid: ", 10);
      var sizeFlags := Labelled(lines[4], "  size: ", "\tflags: ", 16);
      if ctime.None? || mtime.None? || devIno.None? || uidGid.None? || sizeFlags.None? then None
      else Some(IndexEntry(octal(head[0]).value, head[1], head[2][0] as int - '0' as int, path, ctime.value, mtime.value,
                           devIno.value.0, devIno.value.1, uidGid.value.0, uidGid.value.1, sizeFlags.value.0, sizeFlags.value.1))
  }

  /** The first entry of `s`, and what follows it. */
  function ParseOne(octal: string -> Option<nat>, s: string): (r: Option<(IndexEntry, string)>)
    ensures r.Some? ==> |r.value.1| < |s|
  {
    var head := CutAt(s, '\t');
    if head.None? then None
    else
      var path := CutAt(head.value.1, '\0');
      if path.None? then None
      else
        var lines := TakeLines(path.value.1, 5);
        if lines.None? then None
        else
          var e := EntryFrom(octal, SplitSpaces(head.value.0), path.value.0, lines.value.0);
          if e.None? then None else Some((e.value, lines.value.1))
  }

  function Parse(octal: string -> Option<nat>, s: string): Option<seq<IndexEntry>>
    decreases |s|
  {
    if s == [] then Some([])
    else
      var first := ParseOne(octal, s);
      if first.None? then None
      else
        var rest := Parse(octal, first.value.1);
        if rest.None? then None else Some([first.value.0] + rest.value)
  }

  // ---- round trip ---------------------------------------------------------------------------------------------------

  predicate WellFormed(e: IndexEntry) {
    IsOid(e.oid) && e.stage < 4 && '\0' !in e.path
  }

  lemma NumbersHaveNone(s: string, base: nat, c: char)
    requires base <= 16 && IsNumber(s, base) && !IsDigit(c, 16)
    ensures c !in s
  {
  }

  lemma HeadIsRead(octal: string -> Option<nat>, e: IndexEntry)
    requires ReadsOctal(octal) && WellFormed(e)
    ensures '\t' !in HeadOf(e) && SplitSpaces(HeadOf(e)) == [PrintMode(e.mode), e.oid, Print(e.stage, 10)]
    ensures octal(PrintMode(e.mode)) == Some(e.mode) && IsStage(Print(e.stage, 10))
    ensures Print(e.stage, 10)[0] as int - '0' as int == e.stage
  {
    PrintIsNumber(e.mode, 8);
    PaddedIsNumber(Print(e.mode, 8));
    PrintIsNumber(e.stage, 10);
    NumbersHaveNone(PrintMode(e.mode), 8, ' ');
    NumbersHaveNone(PrintMode(e.mode), 8, '\t');
    ThreePieces(PrintMode(e.mode), e.oid, Print(e.stage, 10));
  }

  lemma LineIsOneLine(title: string, a: nat, between: string, b: nat, base: nat)
    requires 2 <= base <= 16 && '\n' !in title && '\n' !in between
    ensures '\n' !in PrintLine(title, a, between, b, base)
  {
    PrintIsNumber(a, 10);
    PrintIsNumber(b, base);
    NumbersHaveNone(Print(a, 10), 10, '\n');
    NumbersHaveNone(Print(b, base), base, '\n');
  }

  lemma {:induction false} LinesAreTaken(lines: seq<string>, rest: string)
    requires forall k :: 0 <= k < |lines| ==> '\n' !in lines[k]
    ensures TakeLines(JoinLines(lines, rest), |lines|) == Some((lines, rest))
    decreases |lines|
  {
    if lines != [] {
      assert '\n' !in lines[0];
      CutAtFirst(lines[0], '\n', JoinLines(lines[1..], rest));
      LinesAreTaken(lines[1..], rest);
      assert [lines[0]] + lines[1..] == lines;
    }
  }

  lemma TimesAreRead(a: nat, b: nat)
    ensures TimeOn(PrintLine("  ctime: ", a, ":", b, 10)) == Some((a, b))
    ensures TimeOn(PrintLine("  mtime: ", a, ":", b, 10)) == Some((a, b))
  {
    LineIsRead("  ctime: ", a, ":", b, 10);
    LineIsRead("  mtime: ", a, ":", b, 10);
    assert PrintLine("  mtime: ", a, ":", b, 10)[2] == 'm' && "  ctime: "[2] == 'c';
  }

  predicate ReadsAs(lines: seq<string>, e: IndexEntry)
    requires |lines| == 5
  {
    && TimeOn(lines[0]) == Some(e.ctime) && TimeOn(lines[1]) == Some(e.mtime)
    && Labelled(lines[2], "  dev: ", "\tino: ", 10) == Some((e.dev, e.ino))
    && Labelled(lines[3], "  uid: ", "\tgid: ", 10) == Some((e.uid, e.gid))
    && Labelled(lines[4], "  size: ", "\tflags: ", 16) == Some((e.size, e.flags))
  }

  lemma DebugLines(e: IndexEntry, lines: seq<string>)
    requires lines == DebugOf(e)
    ensures |lines| == 5
    ensures lines[0] == PrintLine("  ctime: ", e.ctime.0, ":", e.ctime.1, 10)
    ensures lines[1] == PrintLine("  mtime: ", e.mtime.0, ":", e.mtime.1, 10)
    ensures lines[2] == PrintLine("  dev: ", e.dev, "\tino: ", e.ino, 10)
    ensures lines[3] == PrintLine("  uid: ", e.uid, "\tgid: ", e.gid, 10)
    ensures lines[4] == PrintLine("  size: ", e.size, "\tflags: ", e.flags, 16)
  {
  }

  lemma NumbersAreRead(e: IndexEntry)
    ensures Labelled(PrintLine("  dev: ", e.dev, "\tino: ", e.ino, 10), "  dev: ", "\tino: ", 10) == Some((e.dev, e.ino))
    ensures Labelled(PrintLine("  uid: ", e.uid, "\tgid: ", e.gid, 10), "  uid: ", "\tgid: ", 10) == Some((e.uid, e.gid))
    ensures Labelled(PrintLine("  size: ", e.size, "\tflags: ", e.flags, 16), "  size: ", "\tflags: ", 16)
         == Some((e.size, e.flags))
  {
    LineIsRead("  dev: ", e.dev, "\tino: ", e.ino, 10);
    LineIsRead("  uid: ", e.uid, "\tgid: ", e.gid, 10);
    LineIsRead("  size: ", e.size, "\tflags: ", e.flags, 16);
  }

  lemma FieldsAreRead(lines: seq<string>, e: IndexEntry)
    requires lines == DebugOf(e)
    ensures |lines| == 5 && ReadsAs(lines, e)
  {
    DebugLines(e, lines);
    TimesAreRead(e.ctime.0, e.ctime.1);
    TimesAreRead(e.mtime.0, e.mtime.1);
    NumbersAreRead(e);
  }

  lemma EntryFromFields(octal: string -> Option<nat>, head: seq<string>, lines: seq<string>, e: IndexEntry)
    requires |lines| == 5 && ReadsAs(lines, e)
    requires |head| == 3 && octal(head[0]) == Some(e.mode) && head[1] == e.oid && IsOid(e.oid)
    requires IsStage(head[2]) && head[2][0] as int - '0' as int == e.stage
    ensures EntryFrom(octal, head, e.path, lines) == Some(e)
  {
  }

  lemma EntryFromListed(octal: string -> Option<nat>, e: IndexEntry, lines: seq<string>)
    requires ReadsOctal(octal) && WellFormed(e) && lines == DebugOf(e)
    ensures |lines| == 5 && EntryFrom(octal, SplitSpaces(HeadOf(e)), e.path, lines) == Some(e)
  {
    HeadIsRead(octal, e);
    FieldsAreRead(lines, e);
    EntryFromFields(octal, SplitSpaces(HeadOf(e)), lines, e);
  }

  lemma DebugIsFiveLines(e: IndexEntry)
    ensures forall k :: 0 <= k < 5 ==> '\n' !in DebugOf(e)[k]
  {
    LineIsOneLine("  ctime: ", e.ctime.0, ":", e.ctime.1, 10);
    LineIsOneLine("  mtime: ", e.mtime.0, ":", e.mtime.1, 10);
    LineIsOneLine("  dev: ", e.dev, "\tino: ", e.ino, 10);
    LineIsOneLine("  uid: ", e.uid, "\tgid: ", e.gid, 10);
    LineIsOneLine("  size: ", e.size, "\tflags: ", e.flags, 16);
  }

  lemma EntryOfParts(octal: string -> Option<nat>, s: string, head: string, below: string, behind: string,
                     lines: seq<string>, e: IndexEntry, rest: string)
    requires CutAt(s, '\t') == Some((head, below)) && CutAt(below, '\0') == Some((e.path, behind))
    requires TakeLines(behind, 5) == Some((lines, rest)) && EntryFrom(octal, SplitSpaces(head), e.path, lines) == Some(e)
    ensures ParseOne(octal, s) == Some((e, rest))
  {
  }

  lemma EntryIsRead(octal: string -> Option<nat>, e: IndexEntry, rest: string)
    requires ReadsOctal(octal) && WellFormed(e)
    ensures ParseOne(octal, Listed(e, rest)) == Some((e, rest))
  {
    var lines := DebugOf(e);
    var behind := JoinLines(lines, rest);
    var below := e.path + (['\0'] + behind);
    HeadIsRead(octal, e);
    CutAtFirst(HeadOf(e), '\t', below);
    CutAtFirst(e.path, '\0', behind);
    DebugIsFiveLines(e);
    LinesAreTaken(lines, rest);
    EntryFromListed(octal, e, lines);
    EntryOfParts(octal, Listed(e, rest), HeadOf(e), below, behind, lines, e, rest);
  }

  lemma ParsedOn(octal: string -> Option<nat>, s: string, e: IndexEntry, rest: string, entries: seq<IndexEntry>)
    requires ParseOne(octal, s) == Some((e, rest)) && Parse(octal, rest) == Some(entries)
    ensures Parse(octal, s) == Some([e] + entries)
  {
  }

  /** Parsing the printed listing gives back the entries, whatever bytes but NUL their paths hold. */
  lemma {:induction false} ListingRoundTrip(octal: string -> Option<nat>, entries: seq<IndexEntry>)
    requires ReadsOctal(octal) && forall k :: 0 <= k < |entries| ==> WellFormed(entries[k])
    ensures Parse(octal, Listing(entries)) == Some(entries)
    decreases |entries|
  {
    if entries != [] {
      EntryIsRead(octal, entries[0], Listing(entries[1..]));
      ListingRoundTrip(octal, entries[1..]);
      ParsedOn(octal, Listing(entries), entries[0], Listing(entries[1..]), entries[1..]);
      assert [entries[0]] + entries[1..] == entries;
    }
  }

  // ---- the parser -------------------------------------------------------------------------------------------------

  /** The first position of `c` from `from` on, or -1. */
  function Find(s: string, c: char, from: nat): (i: int)
    requires from <= |s|
    ensures i == -1 || from <= i < |s|
    decreases |s| - from
  {
    if from == |s| then -1 else if s[from] == c then from else Find(s, c, from + 1)
  }

  lemma {:induction false} FindIsCut(s: string, c: char, from: nat)
    requires from <= |s|
    ensures var i := Find(s, c, from); CutAt(s[from..], c) == if i < 0 then None else Some((s[from..i], s[i + 1..]))
    decreases |s| - from
  {
    if from < |s| && s[from] != c {
      FindIsCut(s, c, from + 1);
      assert s[from..][1..] == s[from + 1..];
      var i := Find(s, c, from + 1);
      if i >= 0 {
        assert s[from..i] == [s[from]] + s[from + 1..i];
      }
    } else if from < |s| {
      assert s[from..][1..] == s[from + 1..] && s[from..from] == [];
    }
  }

  function LinesOnto(lines: seq<string>, more: Option<(seq<string>, string)>): Option<(seq<string>, string)> {
    if more.None? then None else Some((lines + more.value.0, more.value.1))
  }

  lemma TakeStep(lines: seq<string>, s: string, n: nat)
    requires n > 0
    ensures var cut := CutAt(s, '\n');
            LinesOnto(lines, TakeLines(s, n))
            == if cut.None? then None else LinesOnto(lines + [cut.value.0], TakeLines(cut.value.1, n - 1))
  {
    var cut := CutAt(s, '\n');
    if cut.Some? {
      var rest := TakeLines(cut.value.1, n - 1);
      if rest.Some? {
        assert lines + ([cut.value.0] + rest.value.0) == lines + [cut.value.0] + rest.value.0;
      }
    }
  }

  lemma OntoNothing(more: Option<(seq<string>, string)>)
    ensures LinesOnto([], more) == more
  {
    if more.Some? {
      assert [] + more.value.0 == more.value.0;
    }
  }

  lemma NextLine(raw: string, next: nat, stop: int, lines: seq<string>, n: nat)
    requires next <= |raw| && stop == Find(raw, '\n', next) && n > 0
    ensures LinesOnto(lines, TakeLines(raw[next..], n))
         == if stop < 0 then None else LinesOnto(lines + [raw[next..stop]], TakeLines(raw[stop + 1..], n - 1))
  {
    FindIsCut(raw, '\n', next);
    TakeStep(lines, raw[next..], n);
  }

  /** Lines from `position` on: as many as asked for, or none. */
  method ReadLines(raw: string, position: nat, count: nat) returns (r: Option<(seq<string>, nat)>)
    requires position <= |raw|
    ensures r.Some? ==> |r.value.0| == count && position <= r.value.1 <= |raw|
    ensures TakeLines(raw[position..], count) == if r.Some? then Some((r.value.0, raw[r.value.1..])) else None
  {
    var lines, next := [], position;
    OntoNothing(TakeLines(raw[position..], count));
    while |lines| < count
      invariant position <= next <= |raw| && |lines| <= count
      invariant TakeLines(raw[position..], count) == LinesOnto(lines, TakeLines(raw[next..], count - |lines|))
      decreases count - |lines|
    {
      var stop := Find(raw, '\n', next);
      NextLine(raw, next, stop, lines, count - |lines|);
      if stop < 0 {
        return None;
      }
      lines, next := lines + [raw[next..stop]], stop + 1;
    }
    assert lines + [] == lines;
    r := Some((lines, next));
  }

  lemma NoEntry(octal: string -> Option<nat>, s: string)
    requires CutAt(s, '\t').Some? ==> CutAt(CutAt(s, '\t').value.1, '\0').None?
    ensures ParseOne(octal, s).None?
  {
  }

  lemma PartsOfEntry(octal: string -> Option<nat>, s: string, head: string, a: string, path: string, b: string)
    requires CutAt(s, '\t') == Some((head, a)) && CutAt(a, '\0') == Some((path, b))
    ensures TakeLines(b, 5).None? ==> ParseOne(octal, s).None?
    ensures TakeLines(b, 5).Some? ==>
              var e := EntryFrom(octal, SplitSpaces(head), path, TakeLines(b, 5).value.0);
              ParseOne(octal, s) == if e.None? then None else Some((e.value, TakeLines(b, 5).value.1))
  {
  }

  lemma ParseStep(octal: string -> Option<nat>, s: string, entries: seq<IndexEntry>)
    requires s != []
    ensures var first := ParseOne(octal, s);
            Prepended(entries, Parse(octal, s))
            == if first.Some? then Prepended(entries + [first.value.0], Parse(octal, first.value.1)) else None
  {
    var first := ParseOne(octal, s);
    if first.Some? && Parse(octal, first.value.1).Some? {
      var rest := Parse(octal, first.value.1).value;
      assert entries + ([first.value.0] + rest) == entries + [first.value.0] + rest;
    }
  }

  function Prepended(entries: seq<IndexEntry>, rest: Option<seq<IndexEntry>>): Option<seq<IndexEntry>> {
    if rest.None? then None else Some(entries + rest.value)
  }

  /** Where the head of an entry and its path end. */
  method ReadHead(raw: string, position: nat) returns (r: Option<(nat, nat)>)
    requires position < |raw|
    ensures r.Some? ==>
              var (tab, end) := r.value;
              && position <= tab < end < |raw| && CutAt(raw[position..], '\t') == Some((raw[position..tab], raw[tab + 1..]))
              && CutAt(raw[tab + 1..], '\0') == Some((raw[tab + 1..end], raw[end + 1..]))
    ensures r.None? ==>
              var head := CutAt(raw[position..], '\t'); head.Some? ==> CutAt(head.value.1, '\0').None?
  {
    var tab := Find(raw, '\t', position);
    FindIsCut(raw, '\t', position);
    if tab < 0 {
      return None;
    }
    var end := Find(raw, '\0', tab + 1);
    FindIsCut(raw, '\0', tab + 1);
    r := if end < 0 then None else Some((tab, end));
  }

  /** One entry at `position`. Each one ends behind where it began. */
  method ReadEntry(octal: string -> Option<nat>, raw: string, position: nat) returns (r: Option<(IndexEntry, nat)>)
    requires position < |raw|
    ensures r.Some? ==> position < r.value.1 <= |raw|
    ensures ParseOne(octal, raw[position..]) == if r.Some? then Some((r.value.0, raw[r.value.1..])) else None
  {
    var found := ReadHead(raw, position);
    if found.None? {
      NoEntry(octal, raw[position..]);
      return None;
    }
    var (tab, end) := found.value;
    var lines := ReadLines(raw, end + 1, 5);
    PartsOfEntry(octal, raw[position..], raw[position..tab], raw[tab + 1..], raw[tab + 1..end], raw[end + 1..]);
    if lines.None? {
      return None;
    }
    var e := EntryFrom(octal, SplitSpaces(raw[position..tab]), raw[tab + 1..end], lines.value.0);
    if e.None? {
      return None;
    }
    r := Some((e.value, lines.value.1));
  }

  /** All entries of a listing, or the failure of the whole if one part of it has another form. */
  method ParseIndexListing(octal: string -> Option<nat>, raw: string) returns (r: Option<seq<IndexEntry>>)
    ensures r == Parse(octal, raw)
  {
    var entries, position := [], 0;
    assert raw[0..] == raw;
    assert Parse(octal, raw).Some? ==> [] + Parse(octal, raw).value == Parse(octal, raw).value;
    while position < |raw|
      invariant position <= |raw|
      invariant Parse(octal, raw) == Prepended(entries, Parse(octal, raw[position..]))
      decreases |raw| - position
    {
      ParseStep(octal, raw[position..], entries);
      var e := ReadEntry(octal, raw, position);
      if e.None? {
        return None;
      }
      entries, position := entries + [e.value.0], e.value.1;
    }
    assert raw[position..] == [] && entries + [] == entries;
    r := Some(entries);
  }
}
