/**
  What the glob compiler computes, as functions on the text that is left to read, and the two directions of its
  correctness: an accepted glob has a reading with the same meaning, and every readable glob is accepted.
*/
module GlobTranslation {
  import opened Wrappers
  import opened Regexes
  import opened Globs

  // ---- the compiler's decisions ---------------------------------------------------------------------------

  /** A construct read from the front of a text, and the text after it. */
  datatype Read<+T> = NotRead | Read(value: T, rest: string)

  datatype Translation = Refused | Accepted(parts: seq<Regex>, wildcards: nat)

  function Prepend(part: Regex, wildcards: nat, t: Translation): Translation {
    if t.Refused? then Refused else Accepted([part] + t.parts, wildcards + t.wildcards)
  }

  const ANY_PREFIX := Optional(Cat(Star(AnyChar), Literal('/')))

  /** The members of a class, up to and past the `]` that closes it. */
  function ReadItems(text: string, first: bool): (r: Read<seq<Range>>)
    ensures r.Read? ==> |r.rest| < |text|
  {
    if text == "" then NotRead
    else if text[0] == ']' && !first then Read([], text[1..])
    else if text[0] == '\\' && |text| < 2 then NotRead
    else
      var low, after := if text[0] == '\\' then text[1] else text[0], if text[0] == '\\' then text[2..] else text[1..];
      if LooksLikeSpan(after) then
        if after[1] == '\\' && |after| < 3 then NotRead
        else
          var high, rest := if after[1] == '\\' then after[2] else after[1],
                            if after[1] == '\\' then after[3..] else after[2..];
          if high < low then NotRead else WithRange(Range(low, high), ReadItems(rest, false))
      else
        WithRange(Range(low, low), ReadItems(after, false))
  }

  function WithRange(range: Range, r: Read<seq<Range>>): Read<seq<Range>> {
    if r.NotRead? then NotRead else Read([range] + r.value, r.rest)
  }

  predicate StartsWithMark(text: string) {
    text != "" && IsMark(text[0])
  }

  function AfterMark(text: string): string {
    if StartsWithMark(text) then text[1..] else text
  }

  function ClassRegex(negated: bool, ranges: seq<Range>): Regex {
    Cat(NotAhead('/'), CharSet(negated, ranges))
  }

  /** A class, from just after its `[`. */
  function ReadClass(text: string): (r: Read<Regex>)
    ensures r.Read? ==> |r.rest| < |text|
  {
    var items := ReadItems(AfterMark(text), true);
    if items.NotRead? then NotRead else Read(ClassRegex(StartsWithMark(text), items.value), items.rest)
  }

  /** The text after the first `]` that no backslash escapes. */
  function SkipToClose(text: string): (r: Option<string>)
    ensures r.Some? ==> |r.value| < |text|
  {
    if text == "" then None
    else if text[0] == ']' then Some(text[1..])
    else if text[0] == '\\' then if |text| < 2 then None else SkipToClose(text[2..])
    else SkipToClose(text[1..])
  }

  /** The text after a class, as the scan of a group finds it, from just after its `[`. */
  function SkipClass(text: string): (r: Option<string>)
    ensures r.Some? ==> |r.value| < |text|
  {
    var inner := AfterMark(text);
    SkipToClose(if inner != "" && inner[0] == ']' then inner[1..] else inner)
  }

  function WithPiece(piece: string, r: Read<seq<string>>): Read<seq<string>> {
    if r.NotRead? || r.value == [] then NotRead else Read([piece + r.value[0]] + r.value[1..], r.rest)
  }

  /** The alternatives of a group, from just after its `{`. */
  function SplitGroup(text: string): (r: Read<seq<string>>)
    ensures r.Read? ==> r.value != [] && |r.rest| < |text|
    ensures r.Read? ==> forall k :: 0 <= k < |r.value| ==> |r.value[k]| < |text|
    decreases |text|
  {
    if text == "" then NotRead
    else if text[0] == '\\' then
      if |text| < 2 then NotRead else WithPiece(text[..2], SplitGroup(text[2..]))
    else if text[0] == '[' then
      var after := SkipClass(text[1..]);
      if after.None? then NotRead else WithPiece(text[..|text| - |after.value|], SplitGroup(after.value))
    else if text[0] == '{' then NotRead
    else if text[0] == ',' then
      var r := SplitGroup(text[1..]);
      if r.NotRead? then NotRead else Read([""] + r.value, r.rest)
    else if text[0] == '}' then Read([""], text[1..])
    else WithPiece(text[..1], SplitGroup(text[1..]))
  }

  /** How many stars a text begins with. */
  function Stars(text: string): (n: nat)
    ensures n <= |text| && (forall k :: 0 <= k < n ==> text[k] == '*') && (n < |text| ==> text[n] != '*')
  {
    if text == "" || text[0] != '*' then 0 else 1 + Stars(text[1..])
  }

  /** The regular expression of what is left of a glob; `start` and `deep` as in `WellFormed` and the compiler. */
  function Translate(text: string, start: bool, deep: bool): Translation
    decreases |text|, 1, 0
  {
    if text == "" then Accepted([], 0)
    else if text[0] == '\\' then
      if |text| < 2 then Refused else Prepend(Literal(text[1]), 0, Translate(text[2..], text[1] == '/', deep))
    else if text[0] == '?' then Prepend(NotSlash, 1, Translate(text[1..], false, deep))
    else if text[0] == '*' then
      var stars := Stars(text);
      if stars == 1 then Prepend(Star(NotSlash), 1, Translate(text[1..], false, deep))
      else if stars == 2 && deep && start && |text| > 2 && text[2] == '/' then
        Prepend(ANY_PREFIX, 1, Translate(text[3..], true, deep))
      else if stars == 2 && deep && start && |text| == 2 then Accepted([Star(AnyChar)], 1)
      else Refused
    else if text[0] == '[' then
      var r := ReadClass(text[1..]);
      if r.NotRead? then Refused else Prepend(r.value, 1, Translate(r.rest, false, deep))
    else if text[0] == '{' then
      var r := SplitGroup(text[1..]);
      if r.NotRead? then Refused
      else
        var t := TranslateAll(r.value, |text|);
        if t.Refused? || t.parts == [] then Refused
        else Prepend(AnyOf(t.parts), t.wildcards, Translate(r.rest, false, deep))
    else if text[0] == '}' then Refused
    else Prepend(Literal(text[0]), 0, Translate(text[1..], text[0] == '/', deep))
  }

  /** The alternatives of a group, one expression each; an empty alternative is refused. */
  function TranslateAll(alternatives: seq<string>, bound: nat): (t: Translation)
    requires forall k :: 0 <= k < |alternatives| ==> |alternatives[k]| < bound
    ensures t.Accepted? ==> |t.parts| == |alternatives|
    decreases bound, 0, |alternatives|
  {
    if alternatives == [] then Accepted([], 0)
    else if alternatives[0] == "" then Refused
    else
      var t := Translate(alternatives[0], true, false);
      if t.Refused? then Refused else Prepend(Joined(t.parts), t.wildcards, TranslateAll(alternatives[1..], bound))
  }

  // ---- the expression of a reading ------------------------------------------------------------------------

  function EmitRange(item: ClassItem): Range {
    match item
    case One(x) => Range(x.c, x.c)
    case Span(lo, hi) => Range(lo.c, hi.c)
  }

  function EmitRanges(items: seq<ClassItem>): (r: seq<Range>)
    ensures |r| == |items| && forall k :: 0 <= k < |items| ==> r[k] == EmitRange(items[k])
  {
    if items == [] then [] else [EmitRange(items[0])] + EmitRanges(items[1..])
  }

  function EmitAtom(a: Atom): Regex {
    match a
    case Plain(c) => Literal(c)
    case Quoted(c) => Literal(c)
    case AnyOne => NotSlash
    case Run => Star(NotSlash)
    case Class(mark, items) => ClassRegex(mark.Some?, EmitRanges(items))
  }

  function EmitAtoms(atoms: seq<Atom>): seq<Regex> {
    if atoms == [] then [] else [EmitAtom(atoms[0])] + EmitAtoms(atoms[1..])
  }

  function EmitAlternatives(alternatives: seq<seq<Atom>>): (r: seq<Regex>)
    ensures |r| == |alternatives| && forall k :: 0 <= k < |r| ==> r[k] == Joined(EmitAtoms(alternatives[k]))
  {
    if alternatives == [] then [] else [Joined(EmitAtoms(alternatives[0]))] + EmitAlternatives(alternatives[1..])
  }

  function EmitUnit(u: Unit): Regex {
    match u
    case Simple(a) => EmitAtom(a)
    case DeepPrefix => ANY_PREFIX
    case DeepRest => Star(AnyChar)
    case Group(alternatives) => if alternatives == [] then Empty else AnyOf(EmitAlternatives(alternatives))
  }

  function Emit(units: seq<Unit>): seq<Regex> {
    if units == [] then [] else [EmitUnit(units[0])] + Emit(units[1..])
  }

  // ---- the expression means what the reading means --------------------------------------------------------

  lemma AtomMeaning(a: Atom, s: string, i: nat, j: nat)
    requires i <= j <= |s|
    ensures Matches(EmitAtom(a), s, i, j) <==> AtomMatches(a, s[i..j])
  {
    match a
    case Run => NotSlashesMatch(s, i, j);
    case Class(mark, items) =>
      var ranges := EmitRanges(items);
      if i < |s| {
        assert InRanges(s[i], ranges) <==> Member(s[i], items) by {
          assert forall k :: 0 <= k < |items| ==> ranges[k] == EmitRange(items[k]);
        }
      }
      var look, set1 := NotAhead('/'), CharSet(mark.Some?, ranges);
      assert Matches(Cat(look, set1), s, i, j)
        <==> exists k: nat :: i <= k <= j && Matches(look, s, i, k) && Matches(set1, s, k, j);
      if j == i + 1 {
        assert Matches(look, s, i, i) <==> s[i] != '/';
      }
    case _ =>
  }

  lemma {:induction false} AtomsMeaning(atoms: seq<Atom>, s: string, i: nat, j: nat)
    requires i <= j <= |s|
    ensures Matches(Joined(EmitAtoms(atoms)), s, i, j) <==> AtomsMatch(atoms, s[i..j])
  {
    if atoms != [] {
      var head, tail := EmitAtom(atoms[0]), Joined(EmitAtoms(atoms[1..]));
      assert Joined(EmitAtoms(atoms)) == Cat(head, tail);
      forall k: nat | i <= k <= j
        ensures Matches(head, s, i, k) <==> AtomMatches(atoms[0], s[i..j][..k - i])
        ensures Matches(tail, s, k, j) <==> AtomsMatch(atoms[1..], s[i..j][k - i..])
      {
        AtomMeaning(atoms[0], s, i, k);
        AtomsMeaning(atoms[1..], s, k, j);
        assert s[i..j][..k - i] == s[i..k] && s[i..j][k - i..] == s[k..j];
      }
      if AtomsMatch(atoms, s[i..j]) {
        var n :| 0 <= n <= j - i && AtomMatches(atoms[0], s[i..j][..n]) && AtomsMatch(atoms[1..], s[i..j][n..]);
        assert Matches(head, s, i, i + n) && Matches(tail, s, i + n, j);
      }
    }
  }

  lemma UnitMeaning(u: Unit, s: string, i: nat, j: nat)
    requires i <= j <= |s| && (u.Group? ==> u.alternatives != [])
    ensures Matches(EmitUnit(u), s, i, j) <==> UnitMatches(u, s[i..j])
  {
    match u
    case Simple(a) => AtomMeaning(a, s, i, j);
    case DeepPrefix => AnyPrefixMatches(s, i, j);
    case DeepRest => AnythingMatches(s, i, j);
    case Group(alternatives) =>
      MatchesAnyOf(EmitAlternatives(alternatives), s, i, j);
      forall k | 0 <= k < |alternatives| {
        AtomsMeaning(alternatives[k], s, i, j);
      }
  }

  lemma SliceOfSlice(s: string, i: nat, k: nat, j: nat)
    requires i <= k <= j <= |s|
    ensures s[i..j][..k - i] == s[i..k] && s[i..j][k - i..] == s[k..j]
  {
  }

  /** The first unit takes `s[i..k]` and the others the rest up to `j`. */
  ghost predicate FirstEnds(units: seq<Unit>, s: string, i: nat, k: nat, j: nat)
    requires units != [] && j <= |s|
  {
    i <= k <= j && UnitMatches(units[0], s[i..k]) && GlobMatches(units[1..], s[k..j])
  }

  lemma FirstUnitUpTo(units: seq<Unit>, s: string, i: nat, k: nat, j: nat)
    requires units != [] && j <= |s| && FirstEnds(units, s, i, k, j)
    ensures GlobMatches(units, s[i..j])
  {
    SliceOfSlice(s, i, k, j);
    assert UnitMatches(units[0], s[i..j][..k - i]) && GlobMatches(units[1..], s[i..j][k - i..]);
  }

  lemma FirstUnitIn(units: seq<Unit>, s: string, i: nat, j: nat) returns (k: nat)
    requires units != [] && i <= j <= |s| && GlobMatches(units, s[i..j])
    ensures FirstEnds(units, s, i, k, j)
  {
    var text := s[i..j];
    var n :| 0 <= n <= |text| && UnitMatches(units[0], text[..n]) && GlobMatches(units[1..], text[n..]);
    k := i + n;
    SliceOfSlice(s, i, k, j);
  }

  lemma FirstUnitEnds(units: seq<Unit>, s: string, i: nat, j: nat)
    requires units != [] && i <= j <= |s|
    ensures GlobMatches(units, s[i..j])
       <==> exists k: nat :: i <= k <= j && UnitMatches(units[0], s[i..k]) && GlobMatches(units[1..], s[k..j])
  {
    if GlobMatches(units, s[i..j]) {
      var k := FirstUnitIn(units, s, i, j);
    }
    forall k: nat | i <= k <= j && UnitMatches(units[0], s[i..k]) && GlobMatches(units[1..], s[k..j])
      ensures GlobMatches(units, s[i..j])
    {
      FirstUnitUpTo(units, s, i, k, j);
    }
  }

  lemma {:induction false} GlobMeaning(units: seq<Unit>, start: bool, s: string, i: nat, j: nat)
    requires WellFormed(units, start) && i <= j <= |s|
    ensures Matches(Joined(Emit(units)), s, i, j) <==> GlobMatches(units, s[i..j])
  {
    if units != [] {
      var head, tail := EmitUnit(units[0]), Joined(Emit(units[1..]));
      assert Joined(Emit(units)) == Cat(head, tail);
      forall k: nat | i <= k <= j
        ensures Matches(head, s, i, k) <==> UnitMatches(units[0], s[i..k])
        ensures Matches(tail, s, k, j) <==> GlobMatches(units[1..], s[k..j])
      {
        UnitMeaning(units[0], s, i, k);
        GlobMeaning(units[1..], EndsInSlash(SpellUnit(units[0])), s, k, j);
      }
      FirstUnitEnds(units, s, i, j);
    }
  }

  // ---- every accepted text has a reading ------------------------------------------------------------------

  /** The character at the front of a text, plain or escaped, and what follows it. */
  function FrontChar(text: string): Spelled
    requires text != "" && (text[0] == '\\' ==> |text| >= 2)
  {
    if text[0] == '\\' then Escaped(text[1]) else Raw(text[0])
  }

  function BehindChar(text: string): string
    requires text != "" && (text[0] == '\\' ==> |text| >= 2)
  {
    if text[0] == '\\' then text[2..] else text[1..]
  }

  lemma FrontIsSpelled(text: string)
    requires text != "" && (text[0] == '\\' ==> |text| >= 2)
    ensures text == SpellChar(FrontChar(text)) + BehindChar(text) && |BehindChar(text)| < |text|
  {
  }

  lemma SpanIsSpelled(low: Spelled, after: string)
    requires LooksLikeSpan(after) && (after[1] == '\\' ==> |after| >= 3)
    ensures var high, rest := FrontChar(after[1..]), BehindChar(after[1..]);
            && SpellChar(low) + after == SpellItem(Span(low, high)) + rest
            && high.c == (if after[1] == '\\' then after[2] else after[1])
            && rest == (if after[1] == '\\' then after[3..] else after[2..])
  {
    FrontIsSpelled(after[1..]);
    assert after == "-" + after[1..];
    assert after[1..][1..] == after[2..];
    if after[1] == '\\' {
      assert after[1..][2..] == after[3..];
    }
  }

  /** One member read from the front of a class. */
  lemma SoundItem(text: string, first: bool) returns (item: ClassItem, rest: string)
    requires ReadItems(text, first).Read? && !(text[0] == ']' && !first)
    ensures text == SpellItem(item) + rest
    ensures ReadItems(text, first) == WithRange(EmitRange(item), ReadItems(rest, false))
    ensures ReadableItem(item, rest, first)
  {
    var low, after := FrontChar(text), BehindChar(text);
    FrontIsSpelled(text);
    if LooksLikeSpan(after) {
      SpanIsSpelled(low, after);
      item, rest := Span(low, FrontChar(after[1..])), BehindChar(after[1..]);
    } else {
      item, rest := One(low), after;
    }
  }

  /** Two texts that begin alike up to a closing bracket look like a span together. */
  lemma SpanLookahead(inside: string, rest: string)
    ensures LooksLikeSpan(inside + "]" + rest) == LooksLikeSpan(inside + "]")
  {
    var short, long := inside + "]", inside + "]" + rest;
    assert long[0] == short[0];
    if |short| >= 2 {
      assert long[1] == short[1];
    }
  }

  lemma {:induction false} SoundItems(text: string, first: bool) returns (items: seq<ClassItem>)
    requires ReadItems(text, first).Read?
    ensures WellFormedItems(items, first) && (first ==> items != [])
    ensures text == SpellItems(items) + "]" + ReadItems(text, first).rest
    ensures EmitRanges(items) == ReadItems(text, first).value
    decreases |text|
  {
    if text[0] == ']' && !first {
      items := [];
      assert text == "" + "]" + text[1..];
    } else {
      var item, rest := SoundItem(text, first);
      var tail := SoundItems(rest, false);
      items := ConsItem(item, tail, first, rest, ReadItems(text, first).rest);
    }
  }

  lemma ConsItem(item: ClassItem, tail: seq<ClassItem>, first: bool, rest: string, end: string)
    returns (items: seq<ClassItem>)
    requires ReadableItem(item, rest, first)
    requires WellFormedItems(tail, false) && rest == SpellItems(tail) + "]" + end
    ensures items == [item] + tail && WellFormedItems(items, first)
    ensures SpellItem(item) + rest == SpellItems(items) + "]" + end
    ensures EmitRanges(items) == [EmitRange(item)] + EmitRanges(tail)
  {
    items := [item] + tail;
    assert items[1..] == tail;
    SpanLookahead(SpellItems(tail), end);
  }

  lemma ItemsBegin(items: seq<ClassItem>, more: string)
    requires items != []
    ensures SpellItem(items[0]) != "" && (SpellItems(items) + more)[0] == SpellItem(items[0])[0]
  {
    assert SpellItem(items[0]) != "";
  }

  lemma MarkIsText(text: string)
    ensures text == SpellMark(MarkOf(text)) + AfterMark(text)
  {
  }

  function MarkOf(text: string): Option<char> {
    if StartsWithMark(text) then Some(text[0]) else None
  }

  /** The members of a class are read back from its text. */
  lemma SoundMembers(text: string) returns (items: seq<ClassItem>)
    requires ReadClass(text).Read?
    ensures items != [] && WellFormedItems(items, true) && AfterMark(text) == SpellItems(items) + "]" + ReadClass(text).rest
    ensures ReadClass(text).value == ClassRegex(StartsWithMark(text), EmitRanges(items))
  {
    items := SoundItems(AfterMark(text), true);
  }

  lemma SoundClass(text: string) returns (atom: Atom)
    requires ReadClass(text).Read?
    ensures atom.Class? && WellFormedClass(atom.mark, atom.items)
    ensures "[" + text == SpellAtom(atom) + ReadClass(text).rest
    ensures EmitAtom(atom) == ReadClass(text).value
  {
    var rest := ReadClass(text).rest;
    var items := SoundMembers(text);
    MarkIsText(text);
    ClassBegins(text, items, rest);
    atom := Class(MarkOf(text), items);
    SpelledClass(text, AfterMark(text), MarkOf(text), items, rest);
  }

  lemma SpelledClass(text: string, inner: string, mark: Option<char>, items: seq<ClassItem>, rest: string)
    requires text == SpellMark(mark) + inner && inner == SpellItems(items) + "]" + rest
    ensures "[" + text == SpellAtom(Class(mark, items)) + rest
  {
    BracketText(SpellMark(mark), SpellItems(items), rest);
  }

  /** Without a mark no member may look like one at the start. */
  lemma ClassBegins(text: string, items: seq<ClassItem>, rest: string)
    requires items != [] && AfterMark(text) == SpellItems(items) + "]" + rest
    ensures !StartsWithMark(text) ==> !IsMark(SpellItem(items[0])[0])
  {
    ItemsBegin(items, "]" + rest);
    assert SpellItems(items) + "]" + rest == SpellItems(items) + ("]" + rest);
  }

  lemma BracketText(mark: string, items: string, rest: string)
    ensures "[" + (mark + (items + "]" + rest)) == ("[" + mark + items + "]") + rest
  {
  }

  /** The scan of a group and the class translator agree on where a class ends. */
  lemma {:induction false} ItemsAgree(text: string)
    requires ReadItems(text, false).Read?
    ensures SkipToClose(text) == Some(ReadItems(text, false).rest)
    decreases |text|
  {
    if text[0] != ']' {
      var after := if text[0] == '\\' then text[2..] else text[1..];
      if LooksLikeSpan(after) {
        var rest := if after[1] == '\\' then after[3..] else after[2..];
        ItemsAgree(rest);
        assert SkipToClose(after) == SkipToClose(after[1..]);
        assert after[1..][0] == after[1];
        if after[1] == '\\' {
          assert after[1..][2..] == rest;
        } else {
          assert after[1..][1..] == rest;
        }
      } else {
        ItemsAgree(after);
      }
    }
  }

  lemma ClassesAgree(text: string)
    requires ReadClass(text).Read?
    ensures SkipClass(text) == Some(ReadClass(text).rest)
  {
    var inner := AfterMark(text);
    if inner[0] == ']' {
      var after := inner[1..];
      if LooksLikeSpan(after) {
        ItemsAgree(if after[1] == '\\' then after[3..] else after[2..]);
        assert SkipToClose(after) == SkipToClose(after[1..]);
        assert after[1..][0] == after[1];
        if after[1] == '\\' {
          assert after[1..][2..] == after[3..];
        } else {
          assert after[1..][1..] == after[2..];
        }
      } else {
        ItemsAgree(after);
      }
    } else {
      assert ReadItems(inner, true) == ReadItems(inner, false);
      ItemsAgree(inner);
    }
  }

  /** A text that a group holds as one alternative: no brace and no comma outside escapes and classes. */
  predicate Scannable(text: string)
    decreases |text|
  {
    if text == "" then true
    else if text[0] == '\\' then |text| >= 2 && Scannable(text[2..])
    else if text[0] == '[' then var after := SkipClass(text[1..]); after.Some? && Scannable(after.value)
    else text[0] !in "{,}" && Scannable(text[1..])
  }

  lemma CutInside(text: string, open: nat, n: nat, other: string)
    requires open <= n <= |text|
    ensures text == text[..n] + text[n..] && text[open..][..n - open] == text[open..n] && text[open..][n - open..] == text[n..]
    ensures (text[..n] + other)[..n] == text[..n] && (text[..n] + other)[open..] == text[open..n] + other
  {
  }

  /** A skipped stretch is skipped the same way whatever follows it. */
  lemma {:induction false} SkipIsLocal(text: string, other: string)
    requires SkipToClose(text).Some?
    ensures var n := |text| - |SkipToClose(text).value|;
            text == text[..n] + SkipToClose(text).value && SkipToClose(text[..n] + other) == Some(other)
    decreases |text|
  {
    var n := |text| - |SkipToClose(text).value|;
    if text[0] == ']' {
      assert (text[..1] + other)[1..] == other;
    } else {
      var step := if text[0] == '\\' then 2 else 1;
      SkipIsLocal(text[step..], other);
      CutInside(text, step, n, other);
      assert (text[..n] + other)[0] == text[0];
    }
  }

  /** `SkipClass` drops a mark and a leading bracket, which are read the same way whatever follows. */
  function ClassOpening(text: string): (n: nat)
    ensures n <= |text| && SkipClass(text) == SkipToClose(text[n..])
  {
    var mark := if StartsWithMark(text) then 1 else 0;
    assert text[0..] == text;
    if |text| > mark && text[mark] == ']' then mark + 1 else mark
  }

  lemma OpeningIsLocal(text: string, whole: string, n: nat)
    requires ClassOpening(text) < n <= |text| && n <= |whole| && whole[..n] == text[..n]
    ensures ClassOpening(whole) == ClassOpening(text)
  {
    assert forall i :: 0 <= i < n ==> whole[i] == whole[..n][i] == text[i];
  }

  /** A text cut at `n`, seen from `open` on, with something else behind the cut. */
  lemma SkipClassIsLocal(text: string, other: string)
    requires SkipClass(text).Some?
    ensures var n := |text| - |SkipClass(text).value|;
            text == text[..n] + SkipClass(text).value && SkipClass(text[..n] + other) == Some(other)
  {
    var open := ClassOpening(text);
    var n := |text| - |SkipClass(text).value|;
    SkipIsLocal(text[open..], other);
    CutInside(text, open, n, other);
    SkippedRest(text[open..]);
    OpeningIsLocal(text, text[..n] + other, n);
  }

  lemma SkippedRest(text: string)
    requires SkipToClose(text).Some?
    ensures var k := |text| - |SkipToClose(text).value|; text[k..] == SkipToClose(text).value
  {
    SkipIsLocal(text, "");
  }

  /** How long the first piece of the scan of a group is, where it is neither a comma nor the end. */
  function PieceLength(text: string): (n: nat)
    requires text != ""
    ensures n <= |text|
  {
    if text[0] == '\\' then if |text| < 2 then 0 else 2
    else if text[0] == '[' then
      var after := SkipClass(text[1..]);
      if after.None? then 0 else |text| - |after.value|
    else 1
  }

  /** One unfolding of the scan, at the piece of `n` characters that a text begins with. */
  lemma PieceIsSplit(text: string, n: nat)
    requires 0 < n <= |text| && text[0] !in "{,}"
    requires if text[0] == '\\' then n == 2 else if text[0] == '[' then SkipClass(text[1..]) == Some(text[n..]) else n == 1
    ensures SplitGroup(text) == WithPiece(text[..n], SplitGroup(text[n..]))
  {
  }

  /** A skipped class is a piece up to its closing bracket. */
  lemma ClassPiece(text: string)
    requires text != "" && text[0] == '[' && SkipClass(text[1..]).Some?
    ensures 0 < PieceLength(text) <= |text| && text[PieceLength(text)..] == SkipClass(text[1..]).value
  {
    var rest := SkipClass(text[1..]).value;
    SkipClassIsLocal(text[1..], "");
    SuffixBehind(text, text[1..], rest);
  }

  lemma SuffixBehind(text: string, behind: string, rest: string)
    requires text != "" && behind == text[1..] && |rest| <= |behind| && behind == behind[..|behind| - |rest|] + rest
    ensures text[|text| - |rest|..] == rest
  {
    assert text == [text[0]] + behind;
  }

  lemma SplitStep(text: string)
    requires SplitGroup(text).Read? && text[0] !in ",}"
    ensures var n := PieceLength(text);
            0 < n && SplitGroup(text[n..]).Read? && SplitGroup(text) == WithPiece(text[..n], SplitGroup(text[n..]))
  {
    if text[0] == '[' {
      ClassPiece(text);
    }
    PieceIsSplit(text, PieceLength(text));
  }

  lemma {:induction false} SplitKeepsText(text: string)
    requires SplitGroup(text).Read?
    ensures text == JoinTexts(SplitGroup(text).value) + "}" + SplitGroup(text).rest
    decreases |text|
  {
    if text[0] == '}' {
      assert text == "" + "}" + text[1..];
    } else if text[0] == ',' {
      var r := SplitGroup(text[1..]);
      SplitKeepsText(text[1..]);
      JoinEmpty(r.value);
      Reassociate(",", JoinTexts(r.value), r.rest);
      assert text == "," + text[1..];
    } else {
      var n := PieceLength(text);
      SplitStep(text);
      var r := SplitGroup(text[n..]);
      SplitKeepsText(text[n..]);
      JoinPiece(text[..n], r.value);
      Reassociate(text[..n], JoinTexts(r.value), r.rest);
      assert text == text[..n] + text[n..];
    }
  }

  lemma {:induction false} SplitIsScannable(text: string)
    requires SplitGroup(text).Read?
    ensures forall k :: 0 <= k < |SplitGroup(text).value| ==> Scannable(SplitGroup(text).value[k])
    decreases |text|
  {
    if text[0] == ',' {
      SplitIsScannable(text[1..]);
    } else if text[0] != '}' {
      SplitStep(text);
      SplitIsScannable(text[PieceLength(text)..]);
      PieceIsScannable(text, SplitGroup(text[PieceLength(text)..]).value[0]);
    }
  }

  /** A piece of the scan in front of a scannable text leaves it scannable. */
  lemma PieceIsScannable(text: string, first: string)
    requires text != "" && text[0] !in "{,}" && PieceLength(text) > 0 && Scannable(first)
    ensures Scannable(text[..PieceLength(text)] + first)
  {
    var n := PieceLength(text);
    var whole := text[..n] + first;
    assert whole[0] == text[0];
    if text[0] == '[' {
      SkipClassIsLocal(text[1..], first);
      CutInside(text, 1, n, first);
    } else {
      assert whole[n..] == first;
    }
  }

  function JoinTexts(texts: seq<string>): string {
    if texts == [] then "" else if |texts| == 1 then texts[0] else texts[0] + "," + JoinTexts(texts[1..])
  }

  lemma JoinEmpty(texts: seq<string>)
    requires texts != []
    ensures JoinTexts([""] + texts) == "," + JoinTexts(texts)
  {
    assert ([""] + texts)[1..] == texts;
    assert "" + "," == ",";
  }

  lemma Reassociate(piece: string, inside: string, rest: string)
    ensures piece + (inside + "}" + rest) == (piece + inside) + "}" + rest
  {
  }

  lemma Reassociates(a: string, b: string, c: string, d: string)
    ensures a + b + c + d == a + (b + c + d)
  {
  }

  lemma JoinPiece(piece: string, texts: seq<string>)
    requires texts != []
    ensures JoinTexts([piece + texts[0]] + texts[1..]) == piece + JoinTexts(texts)
  {
    assert ([piece + texts[0]] + texts[1..])[1..] == texts[1..];
    if |texts| > 1 {
      Reassociates(piece, texts[0], ",", JoinTexts(texts[1..]));
    }
  }

  /** One more atom in front. */
  lemma AtomInFront(atom: Atom, tail: seq<Atom>)
    ensures var atoms := [atom] + tail;
            && SpellAtoms(atoms) == SpellAtom(atom) + SpellAtoms(tail)
            && (WellFormedAtoms(atoms) <==>
                  WellFormedAtom(atom, SpellAtoms(tail)) && atom != Plain(',') && WellFormedAtoms(tail))
  {
    assert ([atom] + tail)[1..] == tail;
  }

  /** The first atom of an alternative, and what follows it. */
  lemma FirstAtom(text: string, start: bool) returns (atom: Atom, rest: string)
    requires text != "" && Scannable(text) && Translate(text, start, false).Accepted?
    ensures text == SpellAtom(atom) + rest && |rest| < |text| && Scannable(rest)
    ensures WellFormedAtom(atom, rest) && atom != Plain(',')
    ensures Translate(rest, EndsInSlash(SpellAtom(atom)), false).Accepted?
  {
    if text[0] == '\\' {
      atom, rest := Quoted(text[1]), text[2..];
    } else if text[0] == '?' {
      atom, rest := AnyOne, text[1..];
    } else if text[0] == '*' {
      atom, rest := Run, text[1..];
    } else if text[0] == '[' {
      atom, rest := FirstClass(text, start, false);
      ClassesAgree(text[1..]);
    } else {
      atom, rest := Plain(text[0]), text[1..];
    }
  }

  lemma FirstClass(text: string, start: bool, deep: bool) returns (atom: Atom, rest: string)
    requires text != "" && text[0] == '[' && Translate(text, start, deep).Accepted?
    ensures ReadClass(text[1..]).Read? && rest == ReadClass(text[1..]).rest && |rest| < |text|
    ensures atom.Class? && WellFormedAtom(atom, rest) && text == SpellAtom(atom) + rest
    ensures !EndsInSlash(SpellAtom(atom)) && Translate(rest, false, deep).Accepted?
  {
    atom := SoundClass(text[1..]);
    rest := ReadClass(text[1..]).rest;
    ClassIsBracketed(atom);
    assert "[" + text[1..] == text;
  }

  lemma {:induction false} SoundAlternative(text: string, start: bool) returns (atoms: seq<Atom>)
    requires Scannable(text) && Translate(text, start, false).Accepted?
    ensures WellFormedAtoms(atoms) && SpellAtoms(atoms) == text
    decreases |text|
  {
    if text == "" {
      atoms := [];
    } else {
      var atom, rest := FirstAtom(text, start);
      var tail := SoundAlternative(rest, EndsInSlash(SpellAtom(atom)));
      atoms := [atom] + tail;
      AtomInFront(atom, tail);
    }
  }

  lemma {:induction false} SoundAlternatives(texts: seq<string>, bound: nat) returns (alternatives: seq<seq<Atom>>)
    requires forall k :: 0 <= k < |texts| ==> |texts[k]| < bound && Scannable(texts[k])
    requires TranslateAll(texts, bound).Accepted?
    ensures |alternatives| == |texts| && SpellAlternatives(alternatives) == JoinTexts(texts)
    ensures forall k :: 0 <= k < |alternatives| ==> alternatives[k] != [] && WellFormedAtoms(alternatives[k])
  {
    if texts == [] {
      alternatives := [];
    } else {
      var head := SoundAlternative(texts[0], true);
      var tail := SoundAlternatives(texts[1..], bound);
      alternatives := [head] + tail;
      assert alternatives[1..] == tail;
    }
  }

  /** The first unit of a glob, and what follows it. */
  lemma FirstUnit(text: string, start: bool) returns (head: Unit, rest: string)
    requires text != "" && text != "**" && Translate(text, start, true).Accepted?
    ensures text == SpellUnit(head) + rest && |rest| < |text|
    ensures WellFormedUnit(head, rest, start) && !head.DeepRest?
    ensures Translate(rest, EndsInSlash(SpellUnit(head)), true).Accepted?
  {
    if text[0] == '\\' {
      head, rest := Simple(Quoted(text[1])), text[2..];
    } else if text[0] == '?' {
      head, rest := Simple(AnyOne), text[1..];
    } else if text[0] == '*' && Stars(text) == 1 {
      head, rest := Simple(Run), text[1..];
    } else if text[0] == '*' {
      assert |text| == 2 ==> text == "**";
      head, rest := DeepPrefix, text[3..];
      assert text == "**/" + rest;
    } else if text[0] == '[' {
      var atom;
      atom, rest := FirstClass(text, start, true);
      head := Simple(atom);
    } else if text[0] == '{' {
      head, rest := FirstGroup(text, start);
    } else {
      head, rest := Simple(Plain(text[0])), text[1..];
    }
  }

  lemma AcceptedGroup(text: string, start: bool) returns (texts: seq<string>, rest: string)
    requires text != "" && text[0] == '{' && Translate(text, start, true).Accepted?
    ensures SplitGroup(text[1..]) == Read(texts, rest) && texts != []
    ensures forall k :: 0 <= k < |texts| ==> |texts[k]| < |text|
    ensures TranslateAll(texts, |text|).Accepted? && Translate(rest, false, true).Accepted?
  {
    texts, rest := SplitGroup(text[1..]).value, SplitGroup(text[1..]).rest;
  }

  lemma FirstGroup(text: string, start: bool) returns (head: Unit, rest: string)
    requires text != "" && text[0] == '{' && Translate(text, start, true).Accepted?
    ensures text == SpellUnit(head) + rest && |rest| < |text| && head.Group? && WellFormedGroup(head.alternatives)
    ensures !EndsInSlash(SpellUnit(head)) && Translate(rest, false, true).Accepted?
  {
    var texts;
    texts, rest := AcceptedGroup(text, start);
    var alternatives := GroupReads(text[1..], texts, rest, |text|);
    head := Group(alternatives);
    GroupIsText(text, SpellAlternatives(alternatives), rest);
  }

  lemma GroupReads(inner: string, texts: seq<string>, rest: string, bound: nat) returns (alternatives: seq<seq<Atom>>)
    requires SplitGroup(inner) == Read(texts, rest) && texts != []
    requires (forall k :: 0 <= k < |texts| ==> |texts[k]| < bound) && TranslateAll(texts, bound).Accepted?
    ensures WellFormedGroup(alternatives) && inner == SpellAlternatives(alternatives) + "}" + rest
  {
    SplitKeepsText(inner);
    SplitIsScannable(inner);
    alternatives := SoundAlternatives(texts, bound);
  }

  lemma GroupIsText(text: string, inside: string, rest: string)
    requires text != "" && text[0] == '{' && text[1..] == inside + "}" + rest
    ensures text == "{" + inside + "}" + rest && |rest| < |text| && !EndsInSlash("{" + inside + "}")
  {
    Reassociate("{", inside, rest);
    assert text == "{" + text[1..];
  }

  lemma {:induction false} Sound(text: string, start: bool) returns (units: seq<Unit>)
    requires Translate(text, start, true).Accepted?
    ensures WellFormed(units, start) && Spell(units) == text
    ensures Translate(text, start, true) == Accepted(Emit(units), Wildcards(units))
    decreases |text|
  {
    if text == "" {
      units := [];
    } else if text == "**" {
      assert Stars(text) == 2;
      units := [DeepRest];
    } else {
      var head, rest := FirstUnit(text, start);
      var tail := Sound(rest, EndsInSlash(SpellUnit(head)));
      units := [head] + tail;
      assert units[1..] == tail;
    }
    Complete(units, start);
  }

  // ---- every readable text is accepted, with that reading -------------------------------------------------

  lemma SpelledFront(x: Spelled, rest: string, first: bool)
    requires ReadableChar(x, first)
    ensures var text := SpellChar(x) + rest;
            text != "" && (text[0] == '\\' ==> |text| >= 2) && FrontChar(text) == x && BehindChar(text) == rest
  {
  }

  lemma SpelledSpan(hi: Spelled, rest: string)
    requires ReadableChar(hi, false)
    ensures var after := "-" + (SpellChar(hi) + rest);
            && LooksLikeSpan(after) && (after[1] == '\\' ==> |after| >= 3)
            && hi.c == (if after[1] == '\\' then after[2] else after[1])
            && rest == (if after[1] == '\\' then after[3..] else after[2..])
  {
    var after := "-" + (SpellChar(hi) + rest);
    SpelledFront(hi, rest, false);
    assert after[1..] == SpellChar(hi) + rest && after[1] == (SpellChar(hi) + rest)[0];
    assert after[1..][1..] == after[2..];
    if hi.Escaped? {
      assert after[2] == (SpellChar(hi) + rest)[1];
      assert after[1..][2..] == after[3..];
    }
  }

  lemma ItemReads(item: ClassItem, rest: string, first: bool)
    requires ReadableItem(item, rest, first)
    ensures ReadItems(SpellItem(item) + rest, first) == WithRange(EmitRange(item), ReadItems(rest, false))
  {
    match item
    case One(x) => SpelledFront(x, rest, first);
    case Span(lo, hi) =>
      var after := "-" + (SpellChar(hi) + rest);
      assert SpellItem(item) + rest == SpellChar(lo) + after;
      SpelledFront(lo, after, first);
      SpelledSpan(hi, rest);
  }

  lemma OpenBracket(a: string, b: string, rest: string)
    ensures (a + b) + "]" + rest == a + (b + "]" + rest)
  {
  }

  lemma {:induction false} CompleteItems(items: seq<ClassItem>, first: bool, rest: string)
    requires WellFormedItems(items, first) && (first ==> items != [])
    ensures ReadItems(SpellItems(items) + "]" + rest, first) == Read(EmitRanges(items), rest)
  {
    if items == [] {
      assert ("" + "]" + rest)[1..] == rest;
    } else {
      var inside := SpellItems(items[1..]);
      CompleteItems(items[1..], false, rest);
      SpanLookahead(inside, rest);
      ItemReads(items[0], inside + "]" + rest, first);
      OpenBracket(SpellItem(items[0]), inside, rest);
    }
  }

  lemma CompleteClass(atom: Atom, rest: string)
    requires atom.Class? && WellFormedClass(atom.mark, atom.items)
    ensures var text := SpellAtom(atom) + rest;
            text[0] == '[' && ReadClass(text[1..]) == Read(EmitAtom(atom), rest)
  {
    var inside := SpellItems(atom.items);
    var text, inner := SpellMark(atom.mark) + (inside + "]" + rest), inside + "]" + rest;
    BracketText(SpellMark(atom.mark), inside, rest);
    assert SpellAtom(atom) + rest == "[" + text;
    assert (SpellAtom(atom) + rest)[1..] == text;
    CompleteItems(atom.items, true, rest);
    assert inner[0] == SpellItem(atom.items[0])[0] by {
      assert inside == SpellItem(atom.items[0]) + SpellItems(atom.items[1..]);
      assert SpellItem(atom.items[0]) != "";
    }
    assert text[|SpellMark(atom.mark)|..] == inner;
    assert AfterMark(text) == inner;
  }

  /** One unfolding of the translation, at a class. */
  lemma ClassTranslates(text: string, start: bool, deep: bool, c: Read<Regex>)
    requires text != "" && text[0] == '[' && c == ReadClass(text[1..])
    ensures Translate(text, start, deep) == if c.NotRead? then Refused else Prepend(c.value, 1, Translate(c.rest, false, deep))
  {
  }

  lemma ClassIsBracketed(atom: Atom)
    requires atom.Class?
    ensures var spelled := SpellAtom(atom);
            |spelled| > 1 && spelled[|spelled| - 1] == ']' && !EndsInSlash(spelled)
  {
  }

  lemma CompleteClassAtom(atom: Atom, rest: string, start: bool, deep: bool)
    requires atom.Class? && WellFormedAtom(atom, rest)
    ensures Translate(SpellAtom(atom) + rest, start, deep) == Prepend(EmitAtom(atom), 1, Translate(rest, false, deep))
  {
    CompleteClass(atom, rest);
    ClassTranslates(SpellAtom(atom) + rest, start, deep, Read(EmitAtom(atom), rest));
  }

  lemma CompleteRun(rest: string, start: bool, deep: bool)
    requires rest == "" || rest[0] != '*'
    ensures Translate("*" + rest, start, deep) == Prepend(Star(NotSlash), 1, Translate(rest, false, deep))
  {
    var text := "*" + rest;
    assert text[1..] == rest;
    assert Stars(text) == 1;
  }

  lemma CompletePlain(c: char, rest: string, start: bool, deep: bool)
    requires c !in "\\?*[{}"
    ensures Translate([c] + rest, start, deep) == Prepend(Literal(c), 0, Translate(rest, c == '/', deep))
  {
    assert ([c] + rest)[1..] == rest;
  }

  lemma CompleteQuoted(c: char, rest: string, start: bool, deep: bool)
    ensures Translate(['\\', c] + rest, start, deep) == Prepend(Literal(c), 0, Translate(rest, c == '/', deep))
  {
    assert (['\\', c] + rest)[2..] == rest;
  }

  lemma CompleteAnyOne(rest: string, start: bool, deep: bool)
    ensures Translate("?" + rest, start, deep) == Prepend(NotSlash, 1, Translate(rest, false, deep))
  {
    assert ("?" + rest)[1..] == rest;
  }

  /** One atom at the front of a text, whichever level it is read at. */
  lemma CompleteAtom(atom: Atom, rest: string, start: bool, deep: bool)
    requires WellFormedAtom(atom, rest)
    ensures Translate(SpellAtom(atom) + rest, start, deep)
         == Prepend(EmitAtom(atom), AtomWildcards(atom), Translate(rest, EndsInSlash(SpellAtom(atom)), deep))
  {
    match atom
    case Plain(c) => CompletePlain(c, rest, start, deep);
    case Quoted(c) => CompleteQuoted(c, rest, start, deep);
    case AnyOne => CompleteAnyOne(rest, start, deep);
    case Run => CompleteRun(rest, start, deep);
    case Class(_, _) =>
      CompleteClassAtom(atom, rest, start, deep);
      ClassIsBracketed(atom);
  }

  lemma {:induction false} CompleteAtoms(atoms: seq<Atom>, start: bool)
    requires WellFormedAtoms(atoms)
    ensures Translate(SpellAtoms(atoms), start, false) == Accepted(EmitAtoms(atoms), AtomsWildcards(atoms))
  {
    if atoms != [] {
      CompleteAtoms(atoms[1..], EndsInSlash(SpellAtom(atoms[0])));
      CompleteAtom(atoms[0], SpellAtoms(atoms[1..]), start, false);
    }
  }

  function Texts(alternatives: seq<seq<Atom>>): (r: seq<string>)
    ensures |r| == |alternatives| && forall k :: 0 <= k < |r| ==> r[k] == SpellAtoms(alternatives[k])
  {
    if alternatives == [] then [] else [SpellAtoms(alternatives[0])] + Texts(alternatives[1..])
  }

  lemma CompletePiece(atom: Atom, rest: string, next: string)
    requires WellFormedAtom(atom, next) && atom != Plain(',')
    ensures SplitGroup(SpellAtom(atom) + rest) == WithPiece(SpellAtom(atom), SplitGroup(rest))
  {
    var text := SpellAtom(atom) + rest;
    if atom.Class? {
      CompleteClass(atom, rest);
      ClassesAgree(text[1..]);
    }
    assert text[..|SpellAtom(atom)|] == SpellAtom(atom) && text[|SpellAtom(atom)|..] == rest;
  }

  lemma PiecesCompose(a: string, b: string, r: Read<seq<string>>)
    requires r.Read? && r.value != []
    ensures WithPiece(a, WithPiece(b, r)) == WithPiece(a + b, r)
    ensures WithPiece("", r) == r
  {
    var texts := r.value;
    assert a + (b + texts[0]) == (a + b) + texts[0];
    assert ([b + texts[0]] + texts[1..])[1..] == texts[1..];
    assert "" + texts[0] == texts[0];
    assert [texts[0]] + texts[1..] == texts;
  }

  lemma Grouped(a: string, b: string, c: string)
    ensures (a + b) + c == a + (b + c)
  {
  }

  lemma {:induction false} CompletePieces(atoms: seq<Atom>, rest: string)
    requires WellFormedAtoms(atoms) && SplitGroup(rest).Read?
    ensures SplitGroup(SpellAtoms(atoms) + rest) == WithPiece(SpellAtoms(atoms), SplitGroup(rest))
  {
    var r := SplitGroup(rest);
    if atoms == [] {
      PiecesCompose("", "", r);
      assert SpellAtoms(atoms) + rest == rest;
    } else {
      var piece, more := SpellAtom(atoms[0]), SpellAtoms(atoms[1..]);
      CompletePieces(atoms[1..], rest);
      CompletePiece(atoms[0], more + rest, more);
      PiecesCompose(piece, more, r);
      Grouped(piece, more, rest);
    }
  }

  lemma CompleteLastAlternative(atoms: seq<Atom>, rest: string)
    requires WellFormedAtoms(atoms)
    ensures SplitGroup(SpellAtoms(atoms) + ("}" + rest)) == Read([SpellAtoms(atoms)], rest)
  {
    var close := "}" + rest;
    assert close[1..] == rest;
    var texts := [""];
    assert SplitGroup(close) == Read(texts, rest);
    CompletePieces(atoms, close);
    assert SpellAtoms(atoms) + "" == SpellAtoms(atoms);
    assert [SpellAtoms(atoms)] + texts[1..] == [SpellAtoms(atoms)];
  }

  lemma CompleteFirstAlternative(atoms: seq<Atom>, rest: string)
    requires WellFormedAtoms(atoms) && SplitGroup(rest).Read?
    ensures var r := SplitGroup(rest);
            SplitGroup(SpellAtoms(atoms) + ("," + rest)) == Read([SpellAtoms(atoms)] + r.value, r.rest)
  {
    var comma, r := "," + rest, SplitGroup(rest);
    assert comma[1..] == rest;
    var texts := [""] + r.value;
    assert SplitGroup(comma) == Read(texts, r.rest);
    CompletePieces(atoms, comma);
    assert SpellAtoms(atoms) + "" == SpellAtoms(atoms);
    assert texts[1..] == r.value;
  }

  lemma {:induction false} CompleteSplit(alternatives: seq<seq<Atom>>, rest: string)
    requires alternatives != [] && forall k :: 0 <= k < |alternatives| ==> WellFormedAtoms(alternatives[k])
    ensures SplitGroup(SpellAlternatives(alternatives) + "}" + rest) == Read(Texts(alternatives), rest)
  {
    var head := SpellAtoms(alternatives[0]);
    if |alternatives| == 1 {
      CompleteLastAlternative(alternatives[0], rest);
      assert head + ("}" + rest) == head + "}" + rest;
      assert Texts(alternatives) == [head];
    } else {
      var inside := SpellAlternatives(alternatives[1..]);
      CompleteSplit(alternatives[1..], rest);
      CompleteFirstAlternative(alternatives[0], inside + "}" + rest);
      ListText(head, inside, rest);
    }
  }

  lemma ListText(head: string, inside: string, rest: string)
    ensures (head + "," + inside) + "}" + rest == head + ("," + (inside + "}" + rest))
  {
  }

  /** One alternative of a group is translated after the other. */
  lemma TranslateAllStep(texts: seq<string>, bound: nat, parts: seq<Regex>, wildcards: nat)
    requires texts != [] && forall k :: 0 <= k < |texts| ==> |texts[k]| < bound
    requires texts[0] != "" && Translate(texts[0], true, false) == Accepted(parts, wildcards)
    ensures TranslateAll(texts, bound) == Prepend(Joined(parts), wildcards, TranslateAll(texts[1..], bound))
  {
  }

  lemma SpelledIsText(atoms: seq<Atom>)
    requires atoms != []
    ensures SpellAtoms(atoms) != ""
  {
    assert SpellAtom(atoms[0]) != "";
  }

  lemma TextsTail(alternatives: seq<seq<Atom>>)
    requires alternatives != []
    ensures Texts(alternatives)[0] == SpellAtoms(alternatives[0]) && Texts(alternatives)[1..] == Texts(alternatives[1..])
  {
  }

  lemma FitFrom(alternatives: seq<seq<Atom>>, bound: nat)
    requires alternatives != [] && forall k :: 0 <= k < |alternatives| ==> |SpellAtoms(alternatives[k])| < bound
    ensures forall k :: 0 <= k < |Texts(alternatives)| ==> |Texts(alternatives)[k]| < bound
  {
  }

  lemma AlternativesFrom(alternatives: seq<seq<Atom>>)
    requires alternatives != []
    ensures EmitAlternatives(alternatives) == [Joined(EmitAtoms(alternatives[0]))] + EmitAlternatives(alternatives[1..])
    ensures AlternativesWildcards(alternatives)
         == AtomsWildcards(alternatives[0]) + AlternativesWildcards(alternatives[1..])
  {
  }

  lemma {:induction false} CompleteAlternatives(alternatives: seq<seq<Atom>>, bound: nat)
    requires forall k :: 0 <= k < |alternatives| ==>
               alternatives[k] != [] && WellFormedAtoms(alternatives[k]) && |SpellAtoms(alternatives[k])| < bound
    ensures TranslateAll(Texts(alternatives), bound)
         == Accepted(EmitAlternatives(alternatives), AlternativesWildcards(alternatives))
  {
    if alternatives != [] {
      var head := alternatives[0];
      CompleteAtoms(head, true);
      CompleteAlternatives(alternatives[1..], bound);
      SpelledIsText(head);
      TextsTail(alternatives);
      AlternativesFrom(alternatives);
      FitFrom(alternatives, bound);
      TranslateAllStep(Texts(alternatives), bound, EmitAtoms(head), AtomsWildcards(head));
    }
  }

  lemma AlternativesFit(alternatives: seq<seq<Atom>>)
    ensures forall k :: 0 <= k < |alternatives| ==> |SpellAtoms(alternatives[k])| <= |SpellAlternatives(alternatives)|
  {
    if |alternatives| > 1 {
      AlternativesFit(alternatives[1..]);
    }
  }

  lemma OpenGroup(text: string, start: bool, texts: seq<string>, rest: string, t: Translation)
    requires text != "" && text[0] == '{' && SplitGroup(text[1..]) == Read(texts, rest)
    requires (forall k :: 0 <= k < |texts| ==> |texts[k]| < |text|) && TranslateAll(texts, |text|) == t
    requires t.Accepted? && t.parts != []
    ensures Translate(text, start, true) == Prepend(AnyOf(t.parts), t.wildcards, Translate(rest, false, true))
  {
  }

  lemma CompleteGroup(alternatives: seq<seq<Atom>>, rest: string, start: bool)
    requires WellFormedGroup(alternatives)
    ensures var u := Group(alternatives);
            Translate(SpellUnit(u) + rest, start, true)
              == Prepend(EmitUnit(u), AlternativesWildcards(alternatives), Translate(rest, false, true))
  {
    var inside := SpellAlternatives(alternatives);
    var text := SpellUnit(Group(alternatives)) + rest;
    Reassociate("{", inside, rest);
    assert text[1..] == inside + "}" + rest;
    CompleteSplit(alternatives, rest);
    AlternativesFit(alternatives);
    CompleteAlternatives(alternatives, |text|);
    OpenGroup(text, start, Texts(alternatives), rest, Accepted(EmitAlternatives(alternatives), AlternativesWildcards(alternatives)));
  }

  lemma CompleteDeep(rest: string, start: bool)
    ensures start ==> Translate("**/" + rest, start, true) == Prepend(ANY_PREFIX, 1, Translate(rest, true, true))
    ensures start ==> Translate("**", start, true) == Accepted([Star(AnyChar)], 1)
  {
    var text := "**/" + rest;
    assert text[3..] == rest && text[1..][0] == '*' && text[1..][1..][0] == '/';
    assert Stars(text) == 2;
    assert Stars("**") == 2;
  }

  lemma CompleteUnit(u: Unit, rest: string, start: bool)
    requires WellFormedUnit(u, rest, start)
    ensures Translate(SpellUnit(u) + rest, start, true)
         == Prepend(EmitUnit(u), UnitWildcards(u), Translate(rest, EndsInSlash(SpellUnit(u)), true))
  {
    match u
    case Simple(a) => CompleteAtom(a, rest, start, true);
    case DeepPrefix => CompleteDeep(rest, start);
    case DeepRest =>
      assert SpellUnit(u) + rest == "**";
      CompleteDeep(rest, start);
    case Group(alternatives) => CompleteGroup(alternatives, rest, start);
  }

  lemma {:induction false} Complete(units: seq<Unit>, start: bool)
    requires WellFormed(units, start)
    ensures Translate(Spell(units), start, true) == Accepted(Emit(units), Wildcards(units))
  {
    if units != [] {
      Complete(units[1..], EndsInSlash(SpellUnit(units[0])));
      CompleteUnit(units[0], Spell(units[1..]), start);
    }
  }

  // ---- the compiler against the dialect -------------------------------------------------------------------

  /** The compiler accepts exactly the texts of the dialect, and what it returns matches what they mean. */
  lemma CompilesTheDialect(glob: string)
    ensures Translate(glob, true, true).Accepted? <==> exists units :: Reads(units, glob)
    ensures forall units :: Reads(units, glob) ==>
              var t := Translate(glob, true, true);
              t.Accepted? && t.wildcards == Wildcards(units)
              && forall text: string :: FullMatch(Joined(t.parts), text) <==> GlobMatches(units, text)
  {
    if Translate(glob, true, true).Accepted? {
      var units := Sound(glob, true);
      assert Reads(units, glob);
    }
    forall units | Reads(units, glob)
      ensures Translate(glob, true, true) == Accepted(Emit(units), Wildcards(units))
      ensures forall text: string :: FullMatch(Joined(Emit(units)), text) <==> GlobMatches(units, text)
    {
      Complete(units, true);
      forall text: string
        ensures FullMatch(Joined(Emit(units)), text) <==> GlobMatches(units, text)
      {
        GlobMeaning(units, true, text, 0, |text|);
        assert text[0..|text|] == text;
      }
    }
  }
}
