/**
  One ignore file: a line becomes at most one rule, and the rules become one alternation, last rule first, whose
  group number says which rule won.
*/
module IgnoreFiles {
  import opened Wrappers
  import opened Regexes
  import opened Globs
  import opened GlobTranslation
  import opened IgnoreRules

  const MAX_PATTERN_CHARS := 512
  const MAX_WILDCARDS := 6
  const MAX_RULES_PER_FILE := 10_000

  datatype Rule = Rule(regex: Regex, negated: bool, dirOnly: bool)

  /** What a line asks for, before its glob is translated. */
  datatype Pattern = Pattern(negated: bool, dirOnly: bool, anchored: bool, body: string)

  datatype Verdict = Ignore | Whitelist

  // ---- one line -------------------------------------------------------------------------------------------

  predicate StartsWith(text: string, prefix: string) {
    |prefix| <= |text| && text[..|prefix|] == prefix
  }

  predicate EndsWith(text: string, suffix: string) {
    |suffix| <= |text| && text[|text| - |suffix|..] == suffix
  }

  /** The characters `str.rstrip` removes. */
  predicate IsSpace(c: char) {
    var code := c as int;
    || 0x09 <= code <= 0x0D || 0x1C <= code <= 0x20 || code == 0x85 || code == 0xA0 || code == 0x1680
    || 0x2000 <= code <= 0x200A || code == 0x2028 || code == 0x2029 || code == 0x202F || code == 0x205F || code == 0x3000
  }

  function StripRight(text: string): string {
    if text != "" && IsSpace(text[|text| - 1]) then StripRight(text[..|text| - 1]) else text
  }

  /** The leading markers of a line: re-included, tied to the file's directory, and what is left. */
  function Leading(line: string): (bool, bool, string)
    requires line != ""
  {
    if StartsWith(line, "\\!") || StartsWith(line, "\\#") then (false, false, line[1..])
    else
      var negated := line[0] == '!';
      var unmarked := if negated then line[1..] else line;
      if StartsWith(unmarked, "/") then (negated, true, unmarked[1..]) else (negated, false, unmarked)
  }

  /** The trailing marker: for directories only, and what is left. */
  function Trailing(line: string): (bool, string) {
    if !EndsWith(line, "/") then (false, line)
    else
      var open := line[..|line| - 1];
      (true, if EndsWith(open, "\\") then open[..|open| - 1] else open)
  }

  /** `None` for a comment or a blank line. */
  function PatternOf(raw: string): Option<Pattern> {
    var line := if EndsWith(raw, "\\ ") then raw else StripRight(raw);
    if StartsWith(raw, "#") || line == "" then None
    else
      var (negated, anchored, relative) := Leading(line);
      var (dirOnly, body) := Trailing(relative);
      Some(Pattern(negated, dirOnly, anchored, body))
  }

  /** A pattern without a separator applies at any depth; one that ends in `**` applies below its directory. */
  function GlobOf(p: Pattern): string {
    var floating := !p.anchored && '/' !in p.body && p.body != "**";
    var glob := if floating then "**/" + p.body else p.body;
    if EndsWith(glob, "/**") then glob + "/*" else glob
  }

  datatype LineOutcome = NoRule | Unsupported | Compiled(rule: Rule)

  /** The expression of a glob that is short enough, readable and has few enough wildcards. */
  function RegexOf(glob: string): Option<Regex> {
    if |glob| > MAX_PATTERN_CHARS then None
    else
      var t := Translate(glob, true, true);
      if t.Refused? || t.wildcards > MAX_WILDCARDS then None else Some(Joined(t.parts))
  }

  function OutcomeOf(line: string): LineOutcome {
    match PatternOf(line)
    case None => NoRule
    case Some(p) =>
      match RegexOf(GlobOf(p))
      case None => Unsupported
      case Some(regex) => Compiled(Rule(regex, p.negated, p.dirOnly))
  }

  method ReadLeading(whole: string) returns (negated: bool, anchored: bool, line: string)
    requires whole != ""
    ensures (negated, anchored, line) == Leading(whole)
  {
    negated, anchored, line := false, false, whole;
    if StartsWith(line, "\\!") || StartsWith(line, "\\#") {
      line := line[1..];
    } else {
      if StartsWith(line, "!") {
        negated := true;
        line := line[1..];
      }
      if StartsWith(line, "/") {
        line := line[1..];
        anchored := true;
      }
    }
  }

  method ReadTrailing(whole: string) returns (dirOnly: bool, line: string)
    ensures (dirOnly, line) == Trailing(whole)
  {
    dirOnly, line := false, whole;
    if EndsWith(line, "/") {
      dirOnly := true;
      line := line[..|line| - 1];
      if EndsWith(line, "\\") {
        line := line[..|line| - 1];
      }
    }
  }

  /** The markers of a line, taken off one after the other. */
  method ReadPattern(raw: string) returns (pattern: Option<Pattern>)
    ensures pattern == PatternOf(raw)
  {
    var line := raw;
    if StartsWith(line, "#") {
      return None;
    }
    if !EndsWith(line, "\\ ") {
      line := StripRight(line);
    }
    if line == "" {
      return None;
    }
    var negated, anchored, relative := ReadLeading(line);
    var dirOnly, body := ReadTrailing(relative);
    return Some(Pattern(negated, dirOnly, anchored, body));
  }

  method ReadGlob(p: Pattern) returns (glob: string)
    ensures glob == GlobOf(p)
  {
    glob := p.body;
    assert StartsWith(glob, "**/") ==> '/' in glob by {
      assert StartsWith(glob, "**/") ==> glob[..3][2] == glob[2] == '/';
    }
    if !p.anchored && '/' !in glob && !(StartsWith(glob, "**/") || glob == "**") {
      glob := "**/" + glob;
    }
    if EndsWith(glob, "/**") {
      glob := glob + "/*";
    }
  }

  method CompileGlob(glob: string) returns (r: Option<Regex>)
    ensures r == RegexOf(glob)
  {
    if |glob| > MAX_PATTERN_CHARS {
      return None;
    }
    var counter := new Counter();
    r := GlobToRegex(glob, counter, true);
    if counter.wildcards > MAX_WILDCARDS {
      return None;
    }
  }

  /** One line to one rule. */
  method RuleFromLine(raw: string) returns (outcome: LineOutcome)
    ensures outcome == OutcomeOf(raw)
  {
    var pattern := ReadPattern(raw);
    if pattern.None? {
      return NoRule;
    }
    var p := pattern.value;
    var glob := ReadGlob(p);
    var regex := CompileGlob(glob);
    return if regex.None? then Unsupported else Compiled(Rule(regex.value, p.negated, p.dirOnly));
  }

  // ---- which patterns a line can ask for ------------------------------------------------------------------

  /** What the markers leave over: a body that none of them, and no trailing space, would be taken from again. */
  predicate Writable(p: Pattern) {
    && (!p.anchored ==> !StartsWith(p.body, "/"))
    && (!p.anchored && !p.negated ==> !StartsWith(p.body, "\\!") && !StartsWith(p.body, "\\#"))
    && (!p.dirOnly ==> !EndsWith(p.body, "/") && (EndsWith(p.body, "\\ ") || StripRight(p.body) == p.body))
    && (p.body == "" ==> p.negated || p.anchored || p.dirOnly)
  }

  function Marks(p: Pattern): string {
    if p.negated then if p.anchored then "!/" else "!"
    else if p.anchored then "/"
    else if StartsWith(p.body, "!") || StartsWith(p.body, "#") then "\\" else ""
  }

  function Ending(p: Pattern): string {
    if p.dirOnly then "\\/" else ""
  }

  /** A line that asks for the pattern. */
  function LineOf(p: Pattern): string {
    Marks(p) + (p.body + Ending(p))
  }

  /** Marks by their characters. */
  lemma Starts(text: string)
    ensures StartsWith(text, "/") <==> |text| >= 1 && text[0] == '/'
    ensures StartsWith(text, "#") <==> |text| >= 1 && text[0] == '#'
    ensures StartsWith(text, "!") <==> |text| >= 1 && text[0] == '!'
    ensures StartsWith(text, "\\!") <==> |text| >= 2 && text[0] == '\\' && text[1] == '!'
    ensures StartsWith(text, "\\#") <==> |text| >= 2 && text[0] == '\\' && text[1] == '#'
  {
  }

  lemma Ends(text: string)
    ensures EndsWith(text, "/") <==> |text| >= 1 && text[|text| - 1] == '/'
    ensures EndsWith(text, "\\ ") <==> |text| >= 2 && text[|text| - 2] == '\\' && text[|text| - 1] == ' '
  {
    if |text| >= 2 {
      assert text[|text| - 2..] == [text[|text| - 2], text[|text| - 1]];
    }
    if |text| >= 1 {
      assert text[|text| - 1..] == [text[|text| - 1]];
    }
  }

  lemma EscapedSlash(body: string, text: string, open: string)
    requires text == body + "\\/" && open == body + "\\"
    ensures EndsWith(text, "/") && text[..|text| - 1] == open && EndsWith(open, "\\") && open[..|open| - 1] == body
  {
    Ends(text);
    assert open[|open| - 1..] == "\\";
  }

  lemma EndingIsRead(p: Pattern)
    requires Writable(p)
    ensures Trailing(p.body + Ending(p)) == (p.dirOnly, p.body)
  {
    if p.dirOnly {
      EscapedSlash(p.body, p.body + "\\/", p.body + "\\");
    } else {
      assert p.body + "" == p.body;
    }
  }

  /** The start of what stands behind the markers. */
  predicate FreeOf(rest: string, p: Pattern) {
    && (!p.anchored ==> !StartsWith(rest, "/"))
    && (!p.anchored && !p.negated ==>
          rest != "" && !StartsWith(rest, "\\!") && !StartsWith(rest, "\\#")
          && (StartsWith(rest, "!") || StartsWith(rest, "#") <==> Marks(p) == "\\"))
  }

  lemma RestIsFree(p: Pattern, rest: string)
    requires Writable(p) && rest == p.body + Ending(p)
    ensures FreeOf(rest, p)
  {
    Starts(p.body);
    Starts(rest);
    assert p.body != "" ==> rest[0] == p.body[0];
    assert |p.body| > 1 ==> rest[1] == p.body[1];
  }

  lemma NegatedIsRead(rest: string, anchored: bool)
    requires !anchored ==> !StartsWith(rest, "/")
    ensures var line := (if anchored then "!/" else "!") + rest;
            !StartsWith(line, "#") && Leading(line) == (true, anchored, rest)
  {
    var line := (if anchored then "!/" else "!") + rest;
    Starts(line);
    assert line[0] == '!' && line[1..] == (if anchored then "/" + rest else rest);
    assert ("/" + rest)[1..] == rest && ("/" + rest)[..1] == "/";
  }

  lemma AnchoredIsRead(rest: string)
    ensures !StartsWith("/" + rest, "#") && Leading("/" + rest) == (false, true, rest)
  {
    var line := "/" + rest;
    Starts(line);
    assert line[0] == '/' && line[1..] == rest;
  }

  lemma EscapedIsRead(rest: string)
    requires StartsWith(rest, "!") || StartsWith(rest, "#")
    ensures !StartsWith("\\" + rest, "#") && Leading("\\" + rest) == (false, false, rest)
  {
    var line := "\\" + rest;
    Starts(line);
    Starts(rest);
    assert line[0] == '\\' && line[1] == rest[0] && line[1..] == rest;
  }

  lemma UnmarkedIsRead(rest: string)
    requires rest != "" && !StartsWith(rest, "!") && !StartsWith(rest, "#") && !StartsWith(rest, "/")
    requires !StartsWith(rest, "\\!") && !StartsWith(rest, "\\#")
    ensures Leading(rest) == (false, false, rest)
  {
    Starts(rest);
  }

  lemma MarksAreRead(p: Pattern)
    requires Writable(p)
    ensures LineOf(p) != "" && !StartsWith(LineOf(p), "#")
    ensures Leading(LineOf(p)) == (p.negated, p.anchored, p.body + Ending(p))
  {
    var rest := p.body + Ending(p);
    RestIsFree(p, rest);
    if p.negated {
      NegatedIsRead(rest, p.anchored);
    } else if p.anchored {
      AnchoredIsRead(rest);
    } else if Marks(p) == "\\" {
      EscapedIsRead(rest);
    } else {
      assert "" + rest == rest;
      UnmarkedIsRead(rest);
    }
  }

  lemma LastIsKept(text: string)
    requires text != "" && !IsSpace(text[|text| - 1])
    ensures StripRight(text) == text
  {
  }

  lemma {:induction false} StrippedHasNoSpace(text: string)
    ensures StripRight(text) == "" || !IsSpace(StripRight(text)[|StripRight(text)| - 1])
    ensures StripRight(text) <= text
    decreases |text|
  {
    if text != "" && IsSpace(text[|text| - 1]) {
      StrippedHasNoSpace(text[..|text| - 1]);
    }
  }

  /** A line that ends with no space, or with an escaped one, loses nothing. */
  predicate KeepsEnd(text: string) {
    text != "" && (!IsSpace(text[|text| - 1]) || (|text| > 1 && text[|text| - 2] == '\\' && text[|text| - 1] == ' '))
  }

  lemma KeptEnd(text: string)
    requires KeepsEnd(text)
    ensures EndsWith(text, "\\ ") || StripRight(text) == text
  {
    Ends(text);
    if !IsSpace(text[|text| - 1]) {
      LastIsKept(text);
    }
  }

  lemma KeepsEndBehind(before: string, text: string)
    requires KeepsEnd(text)
    ensures KeepsEnd(before + text)
  {
    var all := before + text;
    assert all[|all| - 1] == text[|text| - 1];
    assert |text| > 1 ==> all[|all| - 2] == text[|text| - 2];
  }

  lemma BodyKeepsEnd(body: string)
    requires body != "" && (EndsWith(body, "\\ ") || StripRight(body) == body)
    ensures KeepsEnd(body)
  {
    StrippedHasNoSpace(body);
    Ends(body);
  }

  lemma MarksKeepEnd(p: Pattern)
    requires Marks(p) != ""
    ensures KeepsEnd(Marks(p))
  {
  }

  lemma NothingIsStripped(p: Pattern)
    requires Writable(p)
    ensures EndsWith(LineOf(p), "\\ ") || StripRight(LineOf(p)) == LineOf(p)
  {
    var rest := p.body + Ending(p);
    if p.dirOnly {
      assert KeepsEnd("\\/");
      KeepsEndBehind(p.body, "\\/");
      KeepsEndBehind(Marks(p), rest);
      KeptEnd(LineOf(p));
    } else if p.body != "" {
      assert rest == p.body;
      BodyKeepsEnd(p.body);
      KeepsEndBehind(Marks(p), rest);
      KeptEnd(LineOf(p));
    } else {
      assert LineOf(p) == Marks(p);
      MarksKeepEnd(p);
      KeptEnd(LineOf(p));
    }
  }

  lemma PatternReadsBack(p: Pattern)
    requires Writable(p)
    ensures PatternOf(LineOf(p)) == Some(p)
  {
    NothingIsStripped(p);
    MarksAreRead(p);
    EndingIsRead(p);
  }

  /** What is left behind the markers. */
  lemma LeadingLeaves(line: string)
    requires line != "" && !StartsWith(line, "#")
    ensures var (negated, anchored, rest) := Leading(line);
            && |rest| <= |line| && rest == line[|line| - |rest|..]
            && (!anchored ==> !StartsWith(rest, "/"))
            && (!anchored && !negated ==> rest != "" && !StartsWith(rest, "\\!") && !StartsWith(rest, "\\#"))
            && (|line| >= 2 && line[|line| - 2] == '\\' && line[|line| - 1] == ' ' ==> |rest| >= 2)
  {
    var rest := Leading(line).2;
    Starts(line);
    Starts(line[1..]);
    Starts(rest);
  }

  lemma TrailingLeaves(rest: string)
    ensures var (dirOnly, body) := Trailing(rest);
            && body <= rest && (!dirOnly ==> body == rest && !EndsWith(rest, "/")) && (dirOnly ==> rest != "")
  {
  }

  /** What is taken off the end leaves the start as it was. */
  lemma PrefixStarts(body: string, rest: string)
    requires body <= rest
    ensures !StartsWith(rest, "/") ==> !StartsWith(body, "/")
    ensures !StartsWith(rest, "#") ==> !StartsWith(body, "#")
    ensures !StartsWith(rest, "\\!") ==> !StartsWith(body, "\\!")
    ensures !StartsWith(rest, "\\#") ==> !StartsWith(body, "\\#")
  {
    Starts(rest);
    Starts(body);
  }

  /** What a line has been read as ends with no space, or with an escaped one. */
  lemma ReadLineKeepsEnd(raw: string, line: string)
    requires line == (if EndsWith(raw, "\\ ") then raw else StripRight(raw)) && line != ""
    ensures KeepsEnd(line)
  {
    StrippedHasNoSpace(raw);
    Ends(raw);
  }

  lemma SuffixEnds(line: string, rest: string)
    requires rest != "" && |rest| <= |line| && rest == line[|line| - |rest|..]
    ensures rest[|rest| - 1] == line[|line| - 1]
    ensures |rest| > 1 ==> rest[|rest| - 2] == line[|line| - 2]
  {
  }

  lemma SuffixKeepsEnd(line: string, rest: string)
    requires KeepsEnd(line) && rest != "" && |rest| <= |line| && rest == line[|line| - |rest|..]
    requires |line| >= 2 && line[|line| - 2] == '\\' && line[|line| - 1] == ' ' ==> |rest| >= 2
    ensures KeepsEnd(rest)
  {
    SuffixEnds(line, rest);
  }

  /** The end of a line is kept as it is where there is no trailing marker. */
  lemma EndIsWritable(line: string, rest: string)
    requires KeepsEnd(line) && rest != "" && |rest| <= |line| && rest == line[|line| - |rest|..]
    requires |line| >= 2 && line[|line| - 2] == '\\' && line[|line| - 1] == ' ' ==> |rest| >= 2
    ensures EndsWith(rest, "\\ ") || StripRight(rest) == rest
  {
    SuffixKeepsEnd(line, rest);
    KeptEnd(rest);
  }

  /** What the leading markers leave over is not taken for them again. */
  lemma ReadIsFree(line: string, p: Pattern, rest: string)
    requires line != "" && !StartsWith(line, "#") && Leading(line) == (p.negated, p.anchored, rest)
    requires Trailing(rest) == (p.dirOnly, p.body)
    ensures !p.anchored ==> !StartsWith(p.body, "/")
    ensures !p.anchored && !p.negated ==> !StartsWith(p.body, "\\!") && !StartsWith(p.body, "\\#")
    ensures p.body == "" ==> p.negated || p.anchored || p.dirOnly
  {
    LeadingLeaves(line);
    TrailingLeaves(rest);
    PrefixStarts(p.body, rest);
  }

  lemma ReadKeepsEnd(line: string, p: Pattern, rest: string)
    requires KeepsEnd(line) && !StartsWith(line, "#")
    requires Leading(line) == (p.negated, p.anchored, rest) && Trailing(rest) == (p.dirOnly, p.body) && !p.dirOnly
    ensures !EndsWith(p.body, "/") && (EndsWith(p.body, "\\ ") || StripRight(p.body) == p.body)
  {
    LeadingLeaves(line);
    TrailingLeaves(rest);
    if rest != "" {
      EndIsWritable(line, rest);
    }
  }

  lemma ReadIsWritable(raw: string, p: Pattern)
    requires PatternOf(raw) == Some(p)
    ensures Writable(p)
  {
    var line := if EndsWith(raw, "\\ ") then raw else StripRight(raw);
    var rest := Leading(line).2;
    StrippedHasNoSpace(raw);
    PrefixStarts(line, raw);
    ReadIsFree(line, p, rest);
    if !p.dirOnly {
      ReadLineKeepsEnd(raw, line);
      ReadKeepsEnd(line, p, rest);
    }
  }

  /** The patterns that lines ask for are exactly the writable ones, and each is read back from its own line. */
  lemma PatternsAreTheWritable(p: Pattern)
    ensures (exists raw :: PatternOf(raw) == Some(p)) <==> Writable(p)
    ensures Writable(p) ==> PatternOf(LineOf(p)) == Some(p)
  {
    if Writable(p) {
      PatternReadsBack(p);
    }
    forall raw | PatternOf(raw) == Some(p)
      ensures Writable(p)
    {
      ReadIsWritable(raw, p);
    }
  }

  // ---- what a line means --------------------------------------------------------------------------------

  /** A line gives a rule exactly when its glob is short, readable and has few wildcards; the rule means the glob. */
  lemma LineMeaning(line: string, p: Pattern)
    requires PatternOf(line) == Some(p)
    ensures OutcomeOf(line).Compiled? <==>
              |GlobOf(p)| <= MAX_PATTERN_CHARS && exists units :: Reads(units, GlobOf(p)) && Wildcards(units) <= MAX_WILDCARDS
    ensures forall units :: OutcomeOf(line).Compiled? && Reads(units, GlobOf(p)) ==>
              forall path: string :: FullMatch(OutcomeOf(line).rule.regex, path) <==> GlobMatches(units, path)
    ensures !OutcomeOf(line).Compiled? ==> OutcomeOf(line).Unsupported?
  {
    CompilesTheDialect(GlobOf(p));
  }

  // ---- all rules of a file --------------------------------------------------------------------------------

  /** The rules of the lines, in file order, at most `MAX_RULES_PER_FILE` of them. */
  function RulesOf(lines: seq<string>): seq<Rule> {
    if lines == [] then []
    else
      var before, outcome := RulesOf(lines[..|lines| - 1]), OutcomeOf(lines[|lines| - 1]);
      if outcome.Compiled? && |before| < MAX_RULES_PER_FILE then before + [outcome.rule] else before
  }

  /** The lines that asked for a rule and got none. */
  function SkippedOf(lines: seq<string>): nat {
    if lines == [] then 0
    else
      var init, outcome := lines[..|lines| - 1], OutcomeOf(lines[|lines| - 1]);
      SkippedOf(init) +
      if outcome.Unsupported? || (outcome.Compiled? && |RulesOf(init)| >= MAX_RULES_PER_FILE) then 1 else 0
  }

  /** A raw line, or `None` where its bytes are not valid UTF-8. */
  type RawLine = Option<string>

  /** A line as it is read: no trailing carriage return, no byte order mark at the start of the file. */
  function Cleaned(line: string, number: nat): string {
    var bare := if EndsWith(line, "\r") then line[..|line| - 1] else line;
    if number == 0 && StartsWith(bare, "\U{FEFF}") then bare[1..] else bare
  }

  /** The lines before the first one that cannot be decoded. */
  function ReadableLines(raw: seq<RawLine>): (lines: seq<string>)
    ensures |lines| <= |raw|
  {
    if raw == [] then []
    else
      var before := ReadableLines(raw[..|raw| - 1]);
      if |before| == |raw| - 1 && raw[|raw| - 1].Some? then before + [Cleaned(raw[|raw| - 1].value, |raw| - 1)] else before
  }

  /** They are the cleaned lines up to the first undecodable one. */
  lemma {:induction false} ReadableLinesAre(raw: seq<RawLine>)
    ensures var lines := ReadableLines(raw);
            && (forall k :: 0 <= k < |lines| ==> raw[k].Some? && lines[k] == Cleaned(raw[k].value, k))
            && (|lines| < |raw| ==> raw[|lines|].None?)
  {
    if raw != [] {
      var init := raw[..|raw| - 1];
      ReadableLinesAre(init);
      assert forall k :: 0 <= k < |init| ==> init[k] == raw[k];
    }
  }

  lemma NextLine(lines: seq<string>, line: string)
    ensures var rules, outcome := RulesOf(lines), OutcomeOf(line);
            var taken := outcome.Compiled? && |rules| < MAX_RULES_PER_FILE;
            && RulesOf(lines + [line]) == (if taken then rules + [outcome.rule] else rules)
            && SkippedOf(lines + [line]) == SkippedOf(lines) + if outcome.NoRule? || taken then 0 else 1
  {
    assert (lines + [line])[..|lines|] == lines;
  }

  lemma NextReadable(raw: seq<RawLine>, number: nat)
    requires number < |raw| && raw[number].Some? && |ReadableLines(raw[..number])| == number
    ensures ReadableLines(raw[..number + 1]) == ReadableLines(raw[..number]) + [Cleaned(raw[number].value, number)]
  {
    assert raw[..number + 1][..number] == raw[..number];
  }

  method ParseIgnoreFile(raw: seq<RawLine>) returns (rules: seq<Rule>, skipped: nat)
    ensures var lines := ReadableLines(raw); rules == RulesOf(lines) && skipped == SkippedOf(lines)
  {
    rules, skipped := [], 0;
    var number := 0;
    ghost var lines: seq<string> := [];
    while number < |raw|
      invariant number <= |raw| && |lines| == number && lines == ReadableLines(raw[..number])
      invariant rules == RulesOf(lines) && skipped == SkippedOf(lines)
    {
      if raw[number].None? {
        ReadingStops(raw, number);
        return;
      }
      var line := Cleaned(raw[number].value, number);
      var outcome := RuleFromLine(line);
      NextReadable(raw, number);
      NextLine(lines, line);
      lines := lines + [line];
      if outcome.Unsupported? {
        skipped := skipped + 1;
      } else if outcome.Compiled? {
        if |rules| >= MAX_RULES_PER_FILE {
          skipped := skipped + 1;
        } else {
          rules := rules + [outcome.rule];
        }
      }
      number := number + 1;
    }
    assert raw[..number] == raw;
  }

  lemma {:induction false} ReadingStops(raw: seq<RawLine>, number: nat)
    requires number < |raw| && raw[number].None? && |ReadableLines(raw[..number])| == number
    ensures ReadableLines(raw) == ReadableLines(raw[..number])
  {
    var init := raw[..|raw| - 1];
    if number < |init| {
      assert init[..number] == raw[..number];
      ReadingStops(init, number);
    } else {
      assert init == raw[..number];
    }
  }

  // ---- one alternation --------------------------------------------------------------------------------------

  function Reversed(rules: seq<Rule>): (r: seq<Rule>)
    ensures |r| == |rules| && forall k :: 0 <= k < |r| ==> r[k] == rules[|rules| - 1 - k]
  {
    if rules == [] then [] else Reversed(rules[1..]) + [rules[0]]
  }

  function CaptureAll(rules: seq<Rule>): (r: seq<Regex>)
    ensures |r| == |rules| && forall k :: 0 <= k < |r| ==> r[k] == Capture(rules[k].regex)
  {
    seq(|rules|, k requires 0 <= k < |rules| => Capture(rules[k].regex))
  }

  function Signs(rules: seq<Rule>): (r: seq<bool>)
    ensures |r| == |rules| && forall k :: 0 <= k < |r| ==> r[k] == rules[k].negated
  {
    seq(|rules|, k requires 0 <= k < |rules| => rules[k].negated)
  }

  /** A choice between all rules, the last one first, and the sign of each of its groups. */
  function Combine(rules: seq<Rule>): (Option<Regex>, seq<bool>) {
    if rules == [] then (None, [])
    else
      var ordered := Reversed(rules);
      (Some(AnyOf(CaptureAll(ordered))), Signs(ordered))
  }

  /**
    The number of the last group closed by a full match: the engine takes the first alternative that matches, and
    the group around it closes last. `before` groups were opened to the left.
  */
  ghost function LastIndex(pattern: Regex, before: nat, text: string): Option<nat> {
    match pattern
    case Either(a, b) =>
      if FullMatch(a, text) then LastIndex(a, before, text) else LastIndex(b, before + Captures(a), text)
    case Capture(_) => if FullMatch(pattern, text) then Some(before + 1) else None
    case _ => None
  }

  datatype CompiledRules = CompiledRules(forFiles: (Option<Regex>, seq<bool>), forDirs: (Option<Regex>, seq<bool>))

  function FileRules(rules: seq<Rule>): seq<Rule> {
    if rules == [] then []
    else if rules[|rules| - 1].dirOnly then FileRules(rules[..|rules| - 1])
    else FileRules(rules[..|rules| - 1]) + [rules[|rules| - 1]]
  }

  function Compile(rules: seq<Rule>): CompiledRules {
    CompiledRules(Combine(FileRules(rules)), Combine(rules))
  }

  /** The verdict of one alternation; the group number indexes the signs. */
  ghost function VerdictBy(combined: (Option<Regex>, seq<bool>), path: string): Option<Verdict> {
    if combined.0.None? then None
    else
      match LastIndex(combined.0.value, 0, path)
      case None => None
      case Some(n) => if n == 0 || n > |combined.1| then None else Some(if combined.1[n - 1] then Whitelist else Ignore)
  }

  /** The verdict on a path relative to the file's directory. */
  ghost function VerdictOn(compiled: CompiledRules, path: string, isDir: bool): Option<Verdict> {
    VerdictBy(if isDir then compiled.forDirs else compiled.forFiles, path)
  }

  // ---- the verdict is that of the last matching rule --------------------------------------------------------

  predicate NoGroups(rules: seq<Rule>) {
    forall k :: 0 <= k < |rules| ==> Captures(rules[k].regex) == 0
  }

  predicate Applies(rule: Rule, isDir: bool) {
    isDir || !rule.dirOnly
  }

  /** The sign of the last rule, in file order, that applies and matches. */
  ghost function LastMatching(rules: seq<Rule>, path: string, isDir: bool): Option<Verdict> {
    if rules == [] then None
    else
      var last := rules[|rules| - 1];
      if Applies(last, isDir) && FullMatch(last.regex, path) then Some(if last.negated then Whitelist else Ignore)
      else LastMatching(rules[..|rules| - 1], path, isDir)
  }

  /** The first `n` rules do not match; the next one, if there is one, does. */
  ghost predicate FirstMatchAt(rules: seq<Rule>, n: nat, path: string) {
    && n <= |rules| && (n < |rules| ==> FullMatch(rules[n].regex, path))
    && forall k :: 0 <= k < n ==> !FullMatch(rules[k].regex, path)
  }

  function NumberOf(n: Option<nat>, before: nat, none: nat): nat {
    if n.Some? && n.value > before then n.value - before - 1 else none
  }

  lemma NextMatchAt(rules: seq<Rule>, n: nat, path: string)
    requires rules != [] && !FullMatch(rules[0].regex, path) && FirstMatchAt(rules[1..], n, path)
    ensures FirstMatchAt(rules, n + 1, path)
  {
    forall k | 0 <= k < n + 1
      ensures !FullMatch(rules[k].regex, path)
    {
      if k > 0 {
        assert rules[k] == rules[1..][k - 1];
      }
    }
  }

  /** The group of the first alternative, or what the others give behind it. */
  lemma OneAlternativeMore(ordered: seq<Rule>, before: nat, path: string)
    requires ordered != [] && Captures(ordered[0].regex) == 0
    ensures LastIndex(AnyOf(CaptureAll(ordered)), before, path)
         == if FullMatch(ordered[0].regex, path) then Some(before + 1)
            else if |ordered| == 1 then None else LastIndex(AnyOf(CaptureAll(ordered[1..])), before + 1, path)
  {
    var all := CaptureAll(ordered);
    assert all[0] == Capture(ordered[0].regex) && Captures(all[0]) == 1;
    assert FullMatch(all[0], path) <==> FullMatch(ordered[0].regex, path);
    if |ordered| > 1 {
      assert all[1..] == CaptureAll(ordered[1..]);
    }
  }

  /** The first matching alternative of one-group alternatives gives its own number. */
  lemma {:induction false} FirstAlternative(ordered: seq<Rule>, before: nat, path: string)
    requires ordered != [] && NoGroups(ordered)
    ensures var n := LastIndex(AnyOf(CaptureAll(ordered)), before, path);
            && FirstMatchAt(ordered, NumberOf(n, before, |ordered|), path)
            && (n.Some? ==> before < n.value <= before + |ordered|)
  {
    OneAlternativeMore(ordered, before, path);
    if |ordered| > 1 && !FullMatch(ordered[0].regex, path) {
      var tail := ordered[1..];
      assert NoGroups(tail) by {
        assert forall k :: 0 <= k < |tail| ==> tail[k] == ordered[k + 1];
      }
      FirstAlternative(tail, before + 1, path);
      NextMatchAt(ordered, NumberOf(LastIndex(AnyOf(CaptureAll(tail)), before + 1, path), before + 1, |tail|), path);
    }
  }

  /** The first match of the reversed list is the last match of the list. */
  lemma {:induction false} ReversedFirstIsLast(rules: seq<Rule>, n: nat, path: string)
    requires FirstMatchAt(Reversed(rules), n, path)
    ensures LastMatching(rules, path, true)
         == if n == |rules| then None else Some(if Reversed(rules)[n].negated then Whitelist else Ignore)
  {
    if rules != [] {
      var init, last := rules[..|rules| - 1], rules[|rules| - 1];
      var ordered := Reversed(rules);
      assert ordered[0] == last;
      assert ordered[1..] == Reversed(init) by {
        assert forall k :: 0 <= k < |init| ==> ordered[1..][k] == rules[|rules| - 2 - k] == Reversed(init)[k];
      }
      if n > 0 {
        assert forall k :: 0 <= k < |init| ==> Reversed(init)[k] == ordered[k + 1];
        ReversedFirstIsLast(init, n - 1, path);
      }
    }
  }

  lemma CombinedIsLast(rules: seq<Rule>, path: string)
    requires NoGroups(rules)
    ensures VerdictBy(Combine(rules), path) == LastMatching(rules, path, true)
  {
    if rules != [] {
      var ordered := Reversed(rules);
      FirstAlternative(ordered, 0, path);
      var n := LastIndex(AnyOf(CaptureAll(ordered)), 0, path);
      ReversedFirstIsLast(rules, NumberOf(n, 0, |rules|), path);
    }
  }

  lemma NoGroupsOf(init: seq<Rule>, last: Rule)
    ensures NoGroups(init + [last]) <==> NoGroups(init) && Captures(last.regex) == 0
  {
    var rules := init + [last];
    assert rules[|init|] == last && forall k :: 0 <= k < |init| ==> rules[k] == init[k];
  }

  lemma LastMatchingOf(init: seq<Rule>, last: Rule, path: string, isDir: bool)
    ensures LastMatching(init + [last], path, isDir)
         == if Applies(last, isDir) && FullMatch(last.regex, path) then Some(if last.negated then Whitelist else Ignore)
            else LastMatching(init, path, isDir)
  {
    assert (init + [last])[..|init|] == init;
  }

  lemma FileRulesOf(init: seq<Rule>, last: Rule)
    ensures FileRules(init + [last]) == if last.dirOnly then FileRules(init) else FileRules(init) + [last]
  {
    assert (init + [last])[..|init|] == init;
  }

  lemma {:induction false} FileRulesDecide(rules: seq<Rule>, path: string)
    requires NoGroups(rules)
    ensures NoGroups(FileRules(rules))
    ensures LastMatching(FileRules(rules), path, true) == LastMatching(rules, path, false)
  {
    if rules != [] {
      var init, last := rules[..|rules| - 1], rules[|rules| - 1];
      assert rules == init + [last];
      NoGroupsOf(init, last);
      FileRulesDecide(init, path);
      FileRulesOf(init, last);
      LastMatchingOf(init, last, path, false);
      if !last.dirOnly {
        NoGroupsOf(FileRules(init), last);
        LastMatchingOf(FileRules(init), last, path, true);
      }
    }
  }

  /** One alternation answers what the scan of the rules answers. */
  lemma OneAlternation(rules: seq<Rule>, path: string, isDir: bool)
    requires NoGroups(rules)
    ensures VerdictOn(Compile(rules), path, isDir) == LastMatching(rules, path, isDir)
  {
    if isDir {
      CombinedIsLast(rules, path);
    } else {
      FileRulesDecide(rules, path);
      CombinedIsLast(FileRules(rules), path);
    }
  }

  // ---- compiled rules open no groups of their own -----------------------------------------------------------

  lemma JoinedOpensNoGroups(first: Regex, rest: seq<Regex>)
    requires Captures(first) == 0 && Captures(Joined(rest)) == 0
    ensures Captures(Joined([first] + rest)) == 0
  {
    assert ([first] + rest)[1..] == rest;
  }

  lemma {:induction false} EmitOpensNoGroups(units: seq<Unit>)
    ensures Captures(Joined(Emit(units))) == 0
  {
    if units != [] {
      EmitOpensNoGroups(units[1..]);
      UnitOpensNoGroups(units[0]);
      JoinedOpensNoGroups(EmitUnit(units[0]), Emit(units[1..]));
    }
  }

  lemma UnitOpensNoGroups(u: Unit)
    ensures Captures(EmitUnit(u)) == 0
  {
    if u.Group? && u.alternatives != [] {
      forall k | 0 <= k < |u.alternatives|
        ensures Captures(EmitAlternatives(u.alternatives)[k]) == 0
      {
        AtomsOpenNoGroups(u.alternatives[k]);
      }
      ChoicesOpenNoGroups(EmitAlternatives(u.alternatives));
    }
  }

  lemma {:induction false} AtomsOpenNoGroups(atoms: seq<Atom>)
    ensures Captures(Joined(EmitAtoms(atoms))) == 0
  {
    if atoms != [] {
      AtomsOpenNoGroups(atoms[1..]);
      JoinedOpensNoGroups(EmitAtom(atoms[0]), EmitAtoms(atoms[1..]));
    }
  }

  lemma {:induction false} ChoicesOpenNoGroups(choices: seq<Regex>)
    requires choices != [] && forall k :: 0 <= k < |choices| ==> Captures(choices[k]) == 0
    ensures Captures(AnyOf(choices)) == 0
  {
    if |choices| > 1 {
      ChoicesOpenNoGroups(choices[1..]);
    }
  }

  lemma CompiledOpensNoGroups(line: string)
    requires OutcomeOf(line).Compiled?
    ensures Captures(OutcomeOf(line).rule.regex) == 0
  {
    var units := Sound(GlobOf(PatternOf(line).value), true);
    EmitOpensNoGroups(units);
  }

  lemma {:induction false} RulesOpenNoGroups(lines: seq<string>)
    ensures NoGroups(RulesOf(lines))
  {
    if lines != [] {
      var init, outcome := lines[..|lines| - 1], OutcomeOf(lines[|lines| - 1]);
      RulesOpenNoGroups(init);
      if outcome.Compiled? {
        CompiledOpensNoGroups(lines[|lines| - 1]);
        NoGroupsOf(RulesOf(init), outcome.rule);
      }
    }
  }

  // ---- the whole file ---------------------------------------------------------------------------------------

  /** A line decides a path: it is a supported pattern, for this kind of entry, and its glob matches. */
  ghost predicate LineDecides(line: string, path: string, isDir: bool) {
    && OutcomeOf(line).Compiled?
    && (isDir || !PatternOf(line).value.dirOnly)
    && exists units :: Reads(units, GlobOf(PatternOf(line).value)) && GlobMatches(units, path)
  }

  ghost function LastDecidingLine(lines: seq<string>, path: string, isDir: bool): Option<Verdict> {
    if lines == [] then None
    else
      var init, last := lines[..|lines| - 1], lines[|lines| - 1];
      if |RulesOf(init)| < MAX_RULES_PER_FILE && LineDecides(last, path, isDir)
      then Some(if PatternOf(last).value.negated then Whitelist else Ignore)
      else LastDecidingLine(init, path, isDir)
  }

  lemma RuleMeansLine(line: string, path: string, isDir: bool)
    requires OutcomeOf(line).Compiled?
    ensures var rule := OutcomeOf(line).rule;
            Applies(rule, isDir) && FullMatch(rule.regex, path) <==> LineDecides(line, path, isDir)
  {
    var glob := GlobOf(PatternOf(line).value);
    CompilesTheDialect(glob);
    var units :| Reads(units, glob);
  }

  lemma {:induction false} LastMatchingIsLastLine(lines: seq<string>, path: string, isDir: bool)
    ensures LastMatching(RulesOf(lines), path, isDir) == LastDecidingLine(lines, path, isDir)
  {
    if lines != [] {
      var init, last := lines[..|lines| - 1], lines[|lines| - 1];
      LastMatchingIsLastLine(init, path, isDir);
      if OutcomeOf(last).Compiled? {
        RuleMeansLine(last, path, isDir);
        assert (RulesOf(init) + [OutcomeOf(last).rule])[..|RulesOf(init)|] == RulesOf(init);
      }
    }
  }

  /** The verdict of a whole file is the sign of its last line, in file order, whose glob matches the path. */
  lemma FileVerdict(raw: seq<RawLine>, path: string, isDir: bool)
    ensures var lines := ReadableLines(raw);
            VerdictOn(Compile(RulesOf(lines)), path, isDir) == LastDecidingLine(lines, path, isDir)
  {
    var lines := ReadableLines(raw);
    RulesOpenNoGroups(lines);
    OneAlternation(RulesOf(lines), path, isDir);
    LastMatchingIsLastLine(lines, path, isDir);
  }
}
