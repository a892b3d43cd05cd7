/** What a line of an ignore file asks for, in every spelling, and what the globs of its patterns mean. */
module IgnorePatterns {
  import opened Wrappers
  import opened Regexes
  import opened Globs
  import opened GlobTranslation
  import opened IgnoreRules
  import opened IgnoreFiles

  // ---- every spelling of a pattern --------------------------------------------------------------------------

  predicate AllSpaces(text: string) {
    forall k :: 0 <= k < |text| ==> IsSpace(text[k])
  }

  /** A line without the spaces at its end, unless a backslash keeps the last of them. */
  predicate Trimmed(raw: string, line: string) {
    if EndsWith(raw, "\\ ") then line == raw
    else line <= raw && AllSpaces(raw[|line|..]) && (line != "" ==> !IsSpace(line[|line| - 1]))
  }

  lemma {:induction false} StripsSpaces(text: string)
    ensures var line := StripRight(text);
            line <= text && AllSpaces(text[|line|..]) && (line != "" ==> !IsSpace(line[|line| - 1]))
    decreases |text|
  {
    if text != "" && IsSpace(text[|text| - 1]) {
      var init := text[..|text| - 1];
      StripsSpaces(init);
      var line := StripRight(init);
      assert forall k :: 0 <= k < |text| - |line| ==> text[|line|..][k] == if k < |init| - |line| then init[|line|..][k] else text[|text| - 1];
    }
  }

  lemma OneTrim(text: string, a: string, b: string)
    requires a <= text && AllSpaces(text[|a|..]) && (a != "" ==> !IsSpace(a[|a| - 1]))
    requires b <= text && AllSpaces(text[|b|..]) && (b != "" ==> !IsSpace(b[|b| - 1]))
    ensures |a| <= |b|
  {
    SpacesBehind(text, |b|);
  }

  lemma SpacesBehind(text: string, n: nat)
    requires n <= |text| && AllSpaces(text[n..])
    ensures forall k :: n <= k < |text| ==> IsSpace(text[k])
  {
    assert forall k :: n <= k < |text| ==> text[k] == text[n..][k - n];
  }

  lemma TrimmedIsRead(raw: string, line: string)
    ensures Trimmed(raw, line) <==> line == if EndsWith(raw, "\\ ") then raw else StripRight(raw)
  {
    if !EndsWith(raw, "\\ ") {
      StripsSpaces(raw);
      if Trimmed(raw, line) {
        OneTrim(raw, line, StripRight(raw));
        OneTrim(raw, StripRight(raw), line);
      }
    }
  }

  /** How the start of a line can be spelled; a backslash keeps a mark from being one. */
  predicate MarksSpell(marks: string, p: Pattern, rest: string) {
    if p.negated then
      if p.anchored then marks == "!/" else marks == "!" && !StartsWith(rest, "/")
    else if p.anchored then marks == "/"
    else if marks == "\\" then StartsWith(rest, "!") || StartsWith(rest, "#")
    else
      && marks == "" && !StartsWith(rest, "!") && !StartsWith(rest, "#") && !StartsWith(rest, "/")
      && !StartsWith(rest, "\\!") && !StartsWith(rest, "\\#")
  }

  /** How its end can be spelled: a separator, and before it one backslash that belongs to it. */
  predicate EndingSpells(ending: string, p: Pattern) {
    if p.dirOnly then ending == "\\/" || (ending == "/" && !EndsWith(p.body, "\\"))
    else ending == "" && !EndsWith(p.body, "/")
  }

  ghost predicate Spells(line: string, p: Pattern) {
    exists marks, ending :: line == marks + (p.body + ending) && MarksSpell(marks, p, p.body + ending) && EndingSpells(ending, p)
  }

  lemma EndingMeans(rest: string, p: Pattern)
    ensures Trailing(rest) == (p.dirOnly, p.body) <==> exists ending :: rest == p.body + ending && EndingSpells(ending, p)
  {
    var body := p.body;
    if Trailing(rest) == (p.dirOnly, body) {
      if !p.dirOnly {
        assert rest == body + "" && EndingSpells("", p);
      } else {
        DirectoryEnds(rest, body);
        assert EndingSpells(if rest == body + "/" then "/" else "\\/", p);
      }
    }
    forall ending | rest == body + ending && EndingSpells(ending, p)
      ensures Trailing(rest) == (p.dirOnly, body)
    {
      if ending == "/" {
        PlainSlash(body, rest);
      } else if ending == "\\/" {
        EscapedSlash(body, rest, body + "\\");
      } else {
        assert rest == body;
      }
    }
  }

  lemma PlainSlash(body: string, rest: string)
    requires rest == body + "/" && !EndsWith(body, "\\")
    ensures Trailing(rest) == (true, body)
  {
    Ends(rest);
    assert rest[..|rest| - 1] == body;
  }

  lemma DirectoryEnds(rest: string, body: string)
    requires Trailing(rest) == (true, body)
    ensures (rest == body + "/" && !EndsWith(body, "\\")) || rest == body + "\\/"
  {
    Ends(rest);
    var open := rest[..|rest| - 1];
    assert rest == open + "/";
    if EndsWith(open, "\\") {
      assert open[|open| - 1..] == "\\" && open == open[..|open| - 1] + "\\";
      assert (body + "\\") + "/" == body + "\\/";
    }
  }

  lemma MarksMean(line: string, p: Pattern, rest: string)
    requires line != "" && !StartsWith(line, "#")
    ensures Leading(line) == (p.negated, p.anchored, rest) <==> exists marks :: line == marks + rest && MarksSpell(marks, p, rest)
  {
    if Leading(line) == (p.negated, p.anchored, rest) {
      var marks := LeadingMarks(line);
      assert line == marks + rest && MarksSpell(marks, p, rest);
    }
    forall marks | line == marks + rest && MarksSpell(marks, p, rest)
      ensures Leading(line) == (p.negated, p.anchored, rest)
    {
      if p.negated {
        NegatedIsRead(rest, p.anchored);
      } else if p.anchored {
        AnchoredIsRead(rest);
      } else if marks == "\\" {
        EscapedIsRead(rest);
      } else {
        assert line == rest;
        UnmarkedIsRead(rest);
      }
    }
  }

  /** What is taken off the start of a line. */
  lemma LeadingMarks(line: string) returns (marks: string)
    requires line != "" && !StartsWith(line, "#")
    ensures var (negated, anchored, rest) := Leading(line);
            line == marks + rest && forall p: Pattern :: p.negated == negated && p.anchored == anchored ==> MarksSpell(marks, p, rest)
  {
    var (negated, anchored, rest) := Leading(line);
    marks := line[..|line| - |rest|];
    Starts(line);
    Starts(rest);
    if StartsWith(line, "\\!") || StartsWith(line, "\\#") {
      assert marks == "\\";
    } else if negated {
      Starts(line[1..]);
      assert anchored ==> marks == "!/";
    }
  }

  /** A line asks for a pattern exactly if, without the spaces at its end, it spells it. */
  lemma EveryLine(raw: string, p: Pattern)
    ensures PatternOf(raw) == Some(p) <==> !StartsWith(raw, "#") && exists line :: line != "" && Trimmed(raw, line) && Spells(line, p)
  {
    var line := if EndsWith(raw, "\\ ") then raw else StripRight(raw);
    forall l
      ensures Trimmed(raw, l) <==> l == line
    {
      TrimmedIsRead(raw, l);
    }
    if !StartsWith(raw, "#") && line != "" {
      StripsSpaces(raw);
      PrefixStarts(line, raw);
      LineSpells(line, p);
    }
  }

  lemma LineSpells(line: string, p: Pattern)
    requires line != "" && !StartsWith(line, "#")
    ensures (var (negated, anchored, rest) := Leading(line);
             negated == p.negated && anchored == p.anchored && Trailing(rest) == (p.dirOnly, p.body)) <==> Spells(line, p)
  {
    var (negated, anchored, rest) := Leading(line);
    if negated == p.negated && anchored == p.anchored && Trailing(rest) == (p.dirOnly, p.body) {
      EndingMeans(rest, p);
      MarksMean(line, p, rest);
      var ending :| rest == p.body + ending && EndingSpells(ending, p);
      var marks :| line == marks + rest && MarksSpell(marks, p, rest);
      assert line == marks + (p.body + ending);
    }
    if Spells(line, p) {
      var marks, ending :| line == marks + (p.body + ending) && MarksSpell(marks, p, p.body + ending) && EndingSpells(ending, p);
      MarksMean(line, p, p.body + ending);
      EndingMeans(p.body + ending, p);
    }
  }

  /** A line asks for nothing exactly if it begins with `#` or holds only spaces. */
  lemma NoPattern(raw: string)
    ensures PatternOf(raw).None? <==> StartsWith(raw, "#") || AllSpaces(raw)
  {
    var line := if EndsWith(raw, "\\ ") then raw else StripRight(raw);
    Ends(raw);
    StripsSpaces(raw);
    if line == "" {
      assert raw[0..] == raw;
    } else {
      assert line[|line| - 1] == raw[|line| - 1];
      assert EndsWith(raw, "\\ ") ==> !IsSpace(raw[|raw| - 2]);
    }
  }

  /** A body and a plain separator are a rule for directories, behind whatever marks spell the pattern. */
  lemma PlainDirectoryIsRead(p: Pattern, marks: string)
    requires p.dirOnly && !EndsWith(p.body, "\\") && MarksSpell(marks, p, p.body + "/")
    requires !StartsWith(marks + (p.body + "/"), "#")
    ensures PatternOf(marks + (p.body + "/")) == Some(p)
  {
    var line := marks + (p.body + "/");
    assert line[|line| - 1] == '/';
    Ends(line);
    assert line[|line|..] == "" && Trimmed(line, line);
    assert EndingSpells("/", p) && Spells(line, p);
    EveryLine(line, p);
  }

  // ---- the lines of a file ----------------------------------------------------------------------------------

  const MARK := "\U{FEFF}"

  /** One carriage return is taken off the end of a line, and a byte order mark off the start of the first one. */
  lemma CleanedIs(text: string, number: nat)
    ensures number != 0 || !StartsWith(text, MARK) ==>
              Cleaned(text + "\r", number) == text && (!EndsWith(text, "\r") ==> Cleaned(text, number) == text)
    ensures Cleaned(MARK + text + "\r", 0) == text && (!EndsWith(text, "\r") ==> Cleaned(MARK + text, 0) == text)
  {
    assert (text + "\r")[..|text|] == text && (text + "\r")[|text|..] == "\r";
    var marked := MARK + text;
    assert marked[..1] == MARK && marked[1..] == text;
    assert (marked + "\r")[..|marked|] == marked && (marked + "\r")[|marked|..] == "\r";
    assert text != "" ==> marked[|marked| - 1..] == text[|text| - 1..];
  }

  /** How many lines ask for a pattern. */
  function AskedFor(lines: seq<string>): nat {
    if lines == [] then 0
    else AskedFor(lines[..|lines| - 1]) + if PatternOf(lines[|lines| - 1]).Some? then 1 else 0
  }

  /** Each pattern that a file asks for is a rule or counted as skipped. */
  lemma {:induction false} EveryPatternCounts(lines: seq<string>)
    ensures |RulesOf(lines)| + SkippedOf(lines) == AskedFor(lines) && |RulesOf(lines)| <= MAX_RULES_PER_FILE
  {
    if lines != [] {
      EveryPatternCounts(lines[..|lines| - 1]);
    }
  }

  // ---- a pattern without a separator matches the last component ---------------------------------------------

  /** Where the last component begins. */
  function LastAt(path: string): (at: nat)
    ensures at <= |path| && (at > 0 ==> path[at - 1] == '/')
    ensures forall k :: at <= k < |path| ==> path[k] != '/'
  {
    if path == "" || path[|path| - 1] == '/' then |path| else LastAt(path[..|path| - 1])
  }

  function LastComponent(path: string): (c: string)
    ensures '/' !in c && path[..LastAt(path)] + c == path
  {
    path[LastAt(path)..]
  }

  /** No unit reaches across components. */
  predicate Shallow(units: seq<Unit>) {
    forall k :: 0 <= k < |units| ==> !units[k].DeepPrefix? && !units[k].DeepRest? && '/' !in SpellUnit(units[k])
  }

  lemma SlashFreeParts(a: string, b: string)
    requires '/' !in a + b
    ensures '/' !in a && '/' !in b
  {
    assert forall k :: 0 <= k < |a| ==> (a + b)[k] == a[k];
    assert forall k :: 0 <= k < |b| ==> (a + b)[|a| + k] == b[k];
  }

  lemma SlashFreeCut(text: string, k: nat)
    requires k <= |text| && '/' !in text[..k] && '/' !in text[k..]
    ensures '/' !in text
  {
    assert text == text[..k] + text[k..];
  }

  lemma {:induction false} SeparatorFreeIsShallow(units: seq<Unit>, start: bool)
    requires WellFormed(units, start) && '/' !in Spell(units) && (start ==> Spell(units) != "**")
    ensures Shallow(units)
  {
    if units != [] {
      var u, rest := units[0], units[1..];
      SlashFreeParts(SpellUnit(u), Spell(rest));
      assert !EndsInSlash(SpellUnit(u));
      SeparatorFreeIsShallow(rest, false);
      assert "**/"[2] == '/';
      assert forall k :: 1 <= k < |units| ==> units[k] == rest[k - 1];
    }
  }

  /** A glob without a separator in its text matches no text with one. */
  lemma {:induction false} MatchesStayInComponent(units: seq<Unit>, text: string)
    requires Shallow(units) && GlobMatches(units, text)
    ensures '/' !in text
  {
    if units != [] {
      var u, rest := units[0], units[1..];
      var k :| 0 <= k <= |text| && UnitMatches(u, text[..k]) && GlobMatches(rest, text[k..]);
      PieceStaysInComponent(u, text[..k]);
      MatchesStayInComponent(rest, text[k..]);
      SlashFreeCut(text, k);
    }
  }

  lemma PieceStaysInComponent(u: Unit, piece: string)
    requires '/' !in SpellUnit(u) && !u.DeepPrefix? && !u.DeepRest? && UnitMatches(u, piece)
    ensures '/' !in piece
  {
    match u
    case Simple(a) => AtomStaysInComponent(a, piece);
    case Group(alternatives) =>
      var k :| 0 <= k < |alternatives| && AtomsMatch(alternatives[k], piece);
      var inside := SpellAlternatives(alternatives);
      SlashFreeParts("{" + inside, "}");
      SlashFreeParts("{", inside);
      AlternativeText(alternatives, k);
      AtomsStayInComponent(alternatives[k], piece);
  }

  lemma AtomStaysInComponent(a: Atom, piece: string)
    requires '/' !in SpellAtom(a) && AtomMatches(a, piece)
    ensures '/' !in piece
  {
    match a
    case Plain(c) => assert [c][0] in [c];
    case Quoted(c) => assert SpellAtom(a)[1] == c;
    case _ =>
  }

  lemma {:induction false} AtomsStayInComponent(atoms: seq<Atom>, text: string)
    requires '/' !in SpellAtoms(atoms) && AtomsMatch(atoms, text)
    ensures '/' !in text
  {
    if atoms != [] {
      var k :| 0 <= k <= |text| && AtomMatches(atoms[0], text[..k]) && AtomsMatch(atoms[1..], text[k..]);
      SlashFreeParts(SpellAtom(atoms[0]), SpellAtoms(atoms[1..]));
      AtomStaysInComponent(atoms[0], text[..k]);
      AtomsStayInComponent(atoms[1..], text[k..]);
      SlashFreeCut(text, k);
    }
  }

  lemma AlternativesApart(head: string, inside: string)
    requires '/' !in head + "," + inside
    ensures '/' !in head && '/' !in inside
  {
    SlashFreeParts(head + ",", inside);
    SlashFreeParts(head, ",");
  }

  /** A spelling without a separator gives each alternative and the rest without one. */
  lemma FirstApart(alternatives: seq<seq<Atom>>)
    requires alternatives != [] && '/' !in SpellAlternatives(alternatives)
    ensures '/' !in SpellAtoms(alternatives[0]) && '/' !in SpellAlternatives(alternatives[1..])
  {
    if |alternatives| > 1 {
      AlternativesApart(SpellAtoms(alternatives[0]), SpellAlternatives(alternatives[1..]));
    }
  }

  lemma AlternativeText(alternatives: seq<seq<Atom>>, k: nat)
    requires k < |alternatives| && '/' !in SpellAlternatives(alternatives)
    ensures '/' !in SpellAtoms(alternatives[k])
  {
    for j := 0 to k
      invariant '/' !in SpellAlternatives(alternatives[j..])
    {
      FirstApart(alternatives[j..]);
      assert alternatives[j..][1..] == alternatives[j + 1..];
    }
    FirstApart(alternatives[k..]);
  }

  lemma DeepReaches(own: seq<Unit>, path: string)
    requires GlobMatches(own, LastComponent(path))
    ensures GlobMatches([DeepPrefix] + own, path)
  {
    var at := LastAt(path);
    assert ([DeepPrefix] + own)[1..] == own;
    assert at > 0 ==> path[..at][at - 1] == '/';
    assert UnitMatches(DeepPrefix, path[..at]);
  }

  /** A separator stands right before the last component, and none in it. */
  lemma BeforeLastIsSlash(path: string, k: nat)
    requires k < LastAt(path)
    ensures '/' in path[k..]
  {
    assert path[k..][LastAt(path) - 1 - k] == '/';
  }

  lemma NoSlashInLast(path: string, k: nat)
    requires LastAt(path) < k <= |path|
    ensures path[k - 1] != '/'
  {
  }

  /** What a deep prefix takes ends where a component begins; without a separator in the rest, that is the last one. */
  lemma DeepEndsAtLast(path: string, k: nat)
    requires k <= |path| && UnitMatches(DeepPrefix, path[..k]) && '/' !in path[k..]
    ensures k == LastAt(path)
  {
    assert k > 0 ==> path[..k][k - 1] == path[k - 1];
    if k < LastAt(path) {
      BeforeLastIsSlash(path, k);
    } else if LastAt(path) < k {
      NoSlashInLast(path, k);
    }
  }

  lemma DeepEndsThere(own: seq<Unit>, path: string)
    requires Shallow(own) && GlobMatches([DeepPrefix] + own, path)
    ensures GlobMatches(own, LastComponent(path))
  {
    var whole := [DeepPrefix] + own;
    assert whole[0] == DeepPrefix && whole[1..] == own;
    var k :| 0 <= k <= |path| && UnitMatches(whole[0], path[..k]) && GlobMatches(whole[1..], path[k..]);
    MatchesStayInComponent(own, path[k..]);
    DeepEndsAtLast(path, k);
  }

  /** `**` and a separator in front of a glob that stays in one component: the last component decides. */
  lemma AnyDepth(own: seq<Unit>, path: string)
    requires Shallow(own)
    ensures GlobMatches([DeepPrefix] + own, path) <==> GlobMatches(own, LastComponent(path))
  {
    if GlobMatches(own, LastComponent(path)) {
      DeepReaches(own, path);
    }
    if GlobMatches([DeepPrefix] + own, path) {
      DeepEndsThere(own, path);
    }
  }

  lemma FloatingGlob(p: Pattern)
    requires !p.anchored && '/' !in p.body && p.body != "**"
    ensures GlobOf(p) == "**/" + p.body
  {
    var glob := "**/" + p.body;
    assert glob[3..] == p.body && glob[2] == '/' && glob[0] == '*' && glob[1] == '*';
    var tail := glob[|glob| - 3..];
    assert tail[0] == glob[|glob| - 3];
    assert |p.body| >= 3 ==> glob[|glob| - 3] == p.body[|p.body| - 3];
    assert |p.body| == 2 ==> tail[1..] == p.body;
    assert "/**"[1..] == "**";
  }

  lemma BehindDeepPrefix(body: string)
    ensures var glob := "**/" + body;
            glob[3..] == body && Stars(glob) == 2 && |glob| > 2 && glob[0] == '*' && glob[2] == '/'
  {
    var glob := "**/" + body;
    assert glob[1..][0] == '*' && glob[1..][1..][0] == '/';
  }

  /** All readings of one glob match the same paths. */
  lemma ReadingsAgree(units: seq<Unit>, others: seq<Unit>, glob: string, path: string)
    requires Reads(units, glob) && Reads(others, glob)
    ensures GlobMatches(units, path) <==> GlobMatches(others, path)
  {
    CompilesTheDialect(glob);
    assert FullMatch(Joined(Translate(glob, true, true).parts), path) <==> GlobMatches(units, path);
  }

  lemma BehindPrefix(own: seq<Unit>, body: string)
    requires Reads(own, body)
    ensures Reads([DeepPrefix] + own, "**/" + body)
  {
    assert ([DeepPrefix] + own)[1..] == own;
  }

  lemma BodyIsAccepted(body: string)
    requires Translate("**/" + body, true, true).Accepted?
    ensures Translate(body, true, true).Accepted?
  {
    BehindDeepPrefix(body);
  }

  /** Whatever reading is taken, the glob of such a pattern means `**` and a separator before its own body. */
  lemma FloatingReading(body: string, units: seq<Unit>)
    returns (own: seq<Unit>)
    requires Reads(units, "**/" + body)
    ensures Reads(own, body)
    ensures forall path: string :: GlobMatches(units, path) <==> GlobMatches([DeepPrefix] + own, path)
  {
    CompilesTheDialect("**/" + body);
    BodyIsAccepted(body);
    own := Sound(body, true);
    BehindPrefix(own, body);
    forall path: string
      ensures GlobMatches(units, path) <==> GlobMatches([DeepPrefix] + own, path)
    {
      ReadingsAgree(units, [DeepPrefix] + own, "**/" + body, path);
    }
  }

  /** An accepted, unanchored pattern without a separator matches a path exactly when it matches its last component. */
  lemma FloatingPattern(p: Pattern, units: seq<Unit>, path: string)
    requires !p.anchored && '/' !in p.body && p.body != "**"
    requires Reads(units, GlobOf(p))
    ensures exists own :: Reads(own, p.body) && (GlobMatches(units, path) <==> GlobMatches(own, LastComponent(path)))
  {
    FloatingGlob(p);
    var own := FloatingReading(p.body, units);
    SeparatorFreeIsShallow(own, true);
    AnyDepth(own, path);
    assert Reads(own, p.body);
  }

  // ---- a pattern that ends in two stars applies below its directory -------------------------------------------

  lemma UnitTakes(u: Unit, rest: seq<Unit>, x: string, y: string)
    requires UnitMatches(u, x) && GlobMatches(rest, y)
    ensures GlobMatches([u] + rest, x + y)
  {
    assert ([u] + rest)[1..] == rest && (x + y)[..|x|] == x && (x + y)[|x|..] == y;
  }

  lemma FirstTakes(units: seq<Unit>, text: string) returns (x: string, y: string)
    requires units != [] && GlobMatches(units, text)
    ensures text == x + y && UnitMatches(units[0], x) && GlobMatches(units[1..], y)
  {
    var n :| 0 <= n <= |text| && UnitMatches(units[0], text[..n]) && GlobMatches(units[1..], text[n..]);
    x, y := text[..n], text[n..];
  }

  lemma InFront(u: Unit, a: seq<Unit>, b: seq<Unit>)
    ensures ([u] + a) + b == [u] + (a + b) && (([u] + a) + b)[0] == u && (([u] + a) + b)[1..] == a + b
  {
  }

  lemma TextInFront(x: string, y: string, z: string)
    ensures x + (y + z) == (x + y) + z
  {
  }

  lemma {:induction false} GlobJoined(a: seq<Unit>, b: seq<Unit>, x: string, y: string)
    requires GlobMatches(a, x) && GlobMatches(b, y)
    ensures GlobMatches(a + b, x + y)
    decreases |a|
  {
    if a == [] {
      assert a + b == b && x + y == y;
    } else {
      var x1, x2 := FirstTakes(a, x);
      GlobJoined(a[1..], b, x2, y);
      UnitTakes(a[0], a[1..] + b, x1, x2 + y);
      InFront(a[0], a[1..], b);
      TextInFront(x1, x2, y);
      assert [a[0]] + a[1..] == a;
    }
  }

  lemma {:induction false} GlobParted(a: seq<Unit>, b: seq<Unit>, text: string) returns (x: string, y: string)
    requires GlobMatches(a + b, text)
    ensures text == x + y && GlobMatches(a, x) && GlobMatches(b, y)
    decreases |a|
  {
    if a == [] {
      assert a + b == b && "" + text == text;
      x, y := "", text;
    } else {
      assert [a[0]] + a[1..] == a;
      InFront(a[0], a[1..], b);
      var x1, rest := FirstTakes(a + b, text);
      var x2;
      x2, y := GlobParted(a[1..], b, rest);
      x := x1 + x2;
      UnitTakes(a[0], a[1..], x1, x2);
      TextInFront(x1, x2, y);
    }
  }

  const BELOW: seq<Unit> := [DeepPrefix, Simple(Run)]

  lemma BelowMatchesAll(text: string)
    ensures GlobMatches(BELOW, text)
  {
    var at := LastAt(text);
    DeepTakes(text, at);
    OneUnit(Simple(Run), LastComponent(text));
    UnitTakes(DeepPrefix, [Simple(Run)], text[..at], LastComponent(text));
    assert [DeepPrefix] + [Simple(Run)] == BELOW;
  }

  lemma OneUnit(u: Unit, text: string)
    requires UnitMatches(u, text)
    ensures GlobMatches([u], text)
  {
    assert GlobMatches([], "");
    UnitTakes(u, [], text, "");
    assert [u] + [] == [u] && text + "" == text;
  }

  lemma DeepTakes(text: string, at: nat)
    requires at <= |text| && (at > 0 ==> text[at - 1] == '/')
    ensures UnitMatches(DeepPrefix, text[..at])
  {
    assert at > 0 ==> text[..at][at - 1] == '/';
  }

  /** Two stars, a separator and a star are read in one way. */
  lemma BelowIsRead(units: seq<Unit>)
    requires WellFormed(units, true) && Spell(units) == "**/*"
    ensures units == BELOW
  {
    var rest := units[1..];
    assert units[0] == DeepPrefix by {
      FirstUnitAt(units, "**/*");
    }
    assert Spell(rest) == "*" by {
      assert Spell(units) == "**/" + Spell(rest);
      assert ("**/" + Spell(rest))[3..] == Spell(rest) && "**/*"[3..] == "*";
    }
    FirstUnitAt(rest, "*");
    assert rest[1..] == [];
    assert units == [units[0]] + rest;
  }

  /** The character that a spelling begins with, and the one that its first unit ends with. */
  lemma FirstUnitAt(units: seq<Unit>, text: string)
    requires units != [] && Spell(units) == text
    ensures var first := SpellUnit(units[0]);
            first != "" && |first| <= |text| && first == text[..|first|] && Spell(units[1..]) == text[|first|..]
  {
  }

  lemma {:induction false} BelowComesLast(units: seq<Unit>, start: bool, above: string) returns (own: seq<Unit>)
    requires WellFormed(units, start) && Spell(units) == above + "**/*" && EndsInSlash(above)
    ensures WellFormed(own, start) && Spell(own) == above && units == own + BELOW
    decreases |units|
  {
    var u, rest := units[0], units[1..];
    var n := |SpellUnit(u)|;
    FirstUnitAt(units, above + "**/*");
    UnitEndsAbove(u, above);
    CutAbove(above, n);
    WellFormedFirst(units, start);
    if n == |above| {
      BelowIsRead(rest);
      own := LastAbove(u, start, above);
    } else {
      var tail := BelowComesLast(rest, EndsInSlash(SpellUnit(u)), above[n..]);
      own := OneAbove(u, tail, rest, start, above);
    }
    assert units == [u] + rest;
  }

  lemma WellFormedFirst(units: seq<Unit>, start: bool)
    requires units != [] && WellFormed(units, start)
    ensures WellFormedUnit(units[0], Spell(units[1..]), start) && WellFormed(units[1..], EndsInSlash(SpellUnit(units[0])))
  {
  }

  lemma CutAbove(above: string, n: nat)
    requires n <= |above|
    ensures (above + "**/*")[..n] == above[..n] && (above + "**/*")[n..] == above[n..] + "**/*"
    ensures n == |above| ==> above[..n] == above && above[n..] + "**/*" == "**/*"
    ensures n < |above| && EndsInSlash(above) ==> EndsInSlash(above[n..])
  {
  }

  lemma LastAbove(u: Unit, start: bool, above: string) returns (own: seq<Unit>)
    requires SpellUnit(u) == above && WellFormedUnit(u, "**/*", start)
    ensures WellFormed(own, start) && Spell(own) == above && own == [u]
  {
    own := [u];
    assert own[1..] == [] && Spell(own) == SpellUnit(u) + "";
    NextIsNone(u, start);
  }

  lemma NextIsNone(u: Unit, start: bool)
    requires WellFormedUnit(u, "**/*", start)
    ensures WellFormedUnit(u, "", start)
  {
  }

  lemma OneAbove(u: Unit, tail: seq<Unit>, rest: seq<Unit>, start: bool, above: string) returns (own: seq<Unit>)
    requires var n := |SpellUnit(u)|; n < |above| && SpellUnit(u) == above[..n] && Spell(tail) == above[n..]
    requires WellFormed(tail, EndsInSlash(SpellUnit(u))) && rest == tail + BELOW
    requires WellFormedUnit(u, Spell(rest), start) && Spell(rest) == Spell(tail) + "**/*"
    ensures WellFormed(own, start) && Spell(own) == above && [u] + rest == own + BELOW
  {
    own := [u] + tail;
    InFront(u, tail, BELOW);
    assert own[1..] == tail && above == above[..|SpellUnit(u)|] + above[|SpellUnit(u)|..];
    assert Spell(tail) != "" && (Spell(tail) + "**/*")[0] == Spell(tail)[0];
  }

  /** No unit goes on behind a separator and ends in one or in a star. */
  lemma UnitStops(u: Unit, n: nat)
    requires 0 < n < |SpellUnit(u)| && SpellUnit(u)[n - 1] == '/'
    ensures SpellUnit(u)[|SpellUnit(u)| - 1] !in "*/"
  {
    match u
    case Simple(Class(_, _)) => ClassIsBracketed(u.atom);
    case _ =>
  }

  lemma BeyondAbove(spelled: string, above: string)
    requires EndsInSlash(above) && |spelled| <= |above| + 4 && spelled == (above + "**/*")[..|spelled|]
    ensures |above| < |spelled| ==> spelled[|above| - 1] == '/' && spelled[|spelled| - 1] in "*/"
  {
  }

  /** A unit that begins above the stars ends there. */
  lemma UnitEndsAbove(u: Unit, above: string)
    requires EndsInSlash(above) && |SpellUnit(u)| <= |above| + 4 && SpellUnit(u) == (above + "**/*")[..|SpellUnit(u)|]
    ensures |SpellUnit(u)| <= |above|
  {
    BeyondAbove(SpellUnit(u), above);
    if |SpellUnit(u)| > |above| {
      UnitStops(u, |above|);
    }
  }

  /** Some beginning of the path matches. */
  ghost predicate MatchesAbove(own: seq<Unit>, path: string) {
    exists above :: above <= path && GlobMatches(own, above)
  }

  /** An accepted pattern that ends in a separator and two stars matches what lies below what its own glob matches. */
  lemma BelowPattern(p: Pattern, units: seq<Unit>, path: string)
    requires EndsWith(p.body, "/**") && Reads(units, GlobOf(p))
    ensures exists own :: Reads(own, p.body[..|p.body| - 2]) && (GlobMatches(units, path) <==> MatchesAbove(own, path))
  {
    var above := p.body[..|p.body| - 2];
    BelowGlob(p);
    var own := BelowComesLast(units, true, above);
    if GlobMatches(units, path) {
      var x, y := GlobParted(own, BELOW, path);
    }
    if MatchesAbove(own, path) {
      var x :| x <= path && GlobMatches(own, x);
      BelowMatchesAll(path[|x|..]);
      GlobJoined(own, BELOW, x, path[|x|..]);
      assert x + path[|x|..] == path;
    }
    assert Reads(own, above);
  }

  lemma BelowGlob(p: Pattern)
    requires EndsWith(p.body, "/**")
    ensures var above := p.body[..|p.body| - 2]; EndsInSlash(above) && GlobOf(p) == above + "**/*"
  {
    var above, tail := p.body[..|p.body| - 2], p.body[|p.body| - 3..];
    assert tail[0] == p.body[|p.body| - 3] == '/' && tail[1] == '*' && tail[2] == '*';
    assert p.body == above + "**";
    assert above + "**" + "/*" == above + "**/*";
  }

  /** Two stars alone match every path, and any other pattern with a separator is its own glob. */
  lemma OtherPatterns(p: Pattern, units: seq<Unit>, path: string)
    requires Reads(units, GlobOf(p)) && !EndsWith(p.body, "/**")
    ensures p.body == "**" ==> GlobMatches(units, path)
    ensures p.anchored || '/' in p.body ==> Reads(units, p.body)
  {
    if p.anchored || '/' in p.body {
      assert GlobOf(p) == p.body;
    }
    if p.body == "**" {
      assert !EndsWith("**", "/**") && GlobOf(p) == "**";
      assert [DeepRest][1..] == [] && Reads([DeepRest], "**");
      OneUnit(DeepRest, path);
      ReadingsAgree(units, [DeepRest], "**", path);
    }
  }
}
