/**
  The three translators of ignore patterns as the loops they are: a glob, a class and a group of alternatives, with
  one counter of wildcards between them. Each computes the translation that is measured against the dialect.
*/
module IgnoreRules {
  import opened Wrappers
  import opened Regexes
  import opened Globs
  import opened GlobTranslation

  /** Shared by one translation and the translations of its alternatives. */
  class Counter {
    var wildcards: nat

    constructor ()
      ensures wildcards == 0
    {
      wildcards := 0;
    }
  }

  // ---- the translators ------------------------------------------------------------------------------------

  lemma SubString(glob: string, index: nat, next: nat)
    requires index < next <= |glob|
    ensures glob[index..][next - index..] == glob[next..] && glob[index..][..next - index] == glob[index..next]
    ensures glob[index..][1..] == glob[index + 1..]
  {
  }

  function PrependRanges(ranges: seq<Range>, r: Read<seq<Range>>): Read<seq<Range>> {
    if r.NotRead? then NotRead else Read(ranges + r.value, r.rest)
  }

  /** `all` are the members of a class; those before `index` have been read. */
  ghost predicate ItemsRead(all: Read<seq<Range>>, glob: string, index: nat, first: bool, items: seq<Range>) {
    exists r :: index <= |glob| && r == ReadItems(glob[index..], first) && all == PrependRanges(items, r)
  }

  lemma ItemsStart(glob: string, index: nat) returns (all: Read<seq<Range>>)
    requires index <= |glob|
    ensures all == ReadItems(glob[index..], true) && ItemsRead(all, glob, index, true, [])
  {
    all := ReadItems(glob[index..], true);
    if all.Read? {
      assert [] + all.value == all.value;
    }
    assert all == PrependRanges([], all);
  }

  /** A member from `index` to `next`; `low` is where its (first) character stands. */
  predicate MemberAt(glob: string, index: nat, low: nat, next: nat, range: Range) {
    && index < |glob| && low == (if glob[index] == '\\' then index + 1 else index) && low < next <= |glob|
    && if LooksLikeSpan(glob[low + 1..]) then
         var escaped := glob[low + 2] == '\\';
         && (escaped ==> low + 3 < |glob|) && next == (if escaped then low + 4 else low + 3)
         && range == Range(glob[low], glob[next - 1]) && range.lo <= range.hi
       else next == low + 1 && range == Range(glob[low], glob[low])
  }

  lemma BehindMember(glob: string, index: nat, low: nat)
    requires index <= low < |glob| && low == (if glob[index] == '\\' then index + 1 else index)
    ensures glob[low + 1..] == (if glob[index..][0] == '\\' then glob[index..][2..] else glob[index..][1..])
  {
  }

  lemma MemberIsRead(glob: string, index: nat, first: bool, low: nat, next: nat, range: Range)
    requires MemberAt(glob, index, low, next, range) && !(glob[index] == ']' && !first)
    ensures ReadItems(glob[index..], first) == WithRange(range, ReadItems(glob[next..], false))
  {
    var after := glob[low + 1..];
    BehindMember(glob, index, low);
    if LooksLikeSpan(after) {
      assert glob[next..] == if after[1] == '\\' then after[3..] else after[2..];
    }
  }

  lemma MemberDone(items: seq<Range>, range: Range, r: Read<seq<Range>>)
    ensures PrependRanges(items, WithRange(range, r)) == PrependRanges(items + [range], r)
  {
    if r.Read? {
      assert items + ([range] + r.value) == (items + [range]) + r.value;
    }
  }

  /** What the reader of one member answers. */
  predicate MemberFound(glob: string, index: nat, first: bool, member: Option<(Range, nat)>, low: nat)
    requires index < |glob|
  {
    if member.Some? then MemberAt(glob, index, low, member.value.1, member.value.0) else ReadItems(glob[index..], first).NotRead?
  }

  lemma ItemsStep(all: Read<seq<Range>>, glob: string, index: nat, first: bool, items: seq<Range>,
                  member: Option<(Range, nat)>, low: nat)
    requires ItemsRead(all, glob, index, first, items) && index < |glob| && !(glob[index] == ']' && !first)
    requires MemberFound(glob, index, first, member, low)
    ensures member.None? ==> all.NotRead?
    ensures member.Some? ==>
              var (range, next) := member.value; index < next && ItemsRead(all, glob, next, false, items + [range])
  {
    if member.Some? {
      var (range, next) := member.value;
      var r := ReadItems(glob[next..], false);
      MemberIsRead(glob, index, first, low, next, range);
      MemberDone(items, range, r);
      assert all == PrependRanges(items + [range], r);
    }
  }

  lemma ItemsEnd(all: Read<seq<Range>>, glob: string, index: nat, items: seq<Range>)
    requires ItemsRead(all, glob, index, false, items) && index < |glob| && glob[index] == ']'
    ensures all == Read(items, glob[index + 1..])
  {
    assert glob[index..][1..] == glob[index + 1..] && items + [] == items;
  }

  lemma ItemsUnended(all: Read<seq<Range>>, glob: string, index: nat, first: bool, items: seq<Range>)
    requires ItemsRead(all, glob, index, first, items) && index >= |glob|
    ensures all.NotRead?
  {
    assert glob[index..] == "";
  }

  /** The expression of a class and the index behind it. */
  function ClassAnswer(glob: string, c: Read<Regex>): Option<(Regex, nat)>
    requires c.Read? ==> |c.rest| <= |glob|
  {
    if c.NotRead? then None else Some((c.value, |glob| - |c.rest|))
  }

  /** `[...]` from its bracket at `start`: the expression and the index after the class. */
  method ClassToRegex(glob: string, start: nat) returns (r: Option<(Regex, nat)>)
    requires start < |glob|
    ensures r == ClassAnswer(glob, ReadClass(glob[start + 1..]))
  {
    var length := |glob|;
    var index := start + 1;
    var negate := false;
    if index < length && IsMark(glob[index]) {
      negate := true;
      index := index + 1;
    }
    var members := ReadMembers(glob, index);
    ClassIs(glob, start, negate, index, ReadItems(glob[index..], true));
    return if members.None? then None else Some((ClassRegex(negate, members.value.0), members.value.1));
  }

  /** The members of a class and the index behind its bracket. */
  function MembersAnswer(glob: string, all: Read<seq<Range>>): Option<(seq<Range>, nat)>
    requires all.Read? ==> |all.rest| <= |glob|
  {
    if all.NotRead? then None else Some((all.value, |glob| - |all.rest|))
  }

  method ReadMembers(glob: string, start: nat) returns (r: Option<(seq<Range>, nat)>)
    requires start <= |glob|
    ensures r == MembersAnswer(glob, ReadItems(glob[start..], true))
  {
    var items: seq<Range> := [];
    var first := true;
    var index := start;
    ghost var all := ItemsStart(glob, index);
    while index < |glob|
      invariant ItemsRead(all, glob, index, first, items)
    {
      if glob[index] == ']' && !first {
        ItemsEnd(all, glob, index, items);
        return Some((items, index + 1));
      }
      var member, low := ReadMember(glob, index, first);
      ItemsStep(all, glob, index, first, items, member, low);
      if member.None? {
        return None;
      }
      first := false;
      items, index := items + [member.value.0], member.value.1;
    }
    ItemsUnended(all, glob, index, first, items);
    r := None;
  }

  lemma BehindMark(glob: string, start: nat, negate: bool, index: nat)
    requires start < |glob| && negate == (start + 1 < |glob| && IsMark(glob[start + 1]))
    requires index == start + (if negate then 2 else 1)
    ensures StartsWithMark(glob[start + 1..]) == negate && AfterMark(glob[start + 1..]) == glob[index..]
  {
    if negate {
      SubString(glob, start + 1, start + 2);
    }
  }

  lemma MembersOfClass(glob: string, text: string, all: Read<seq<Range>>)
    requires |text| <= |glob| && all == ReadItems(AfterMark(text), true)
    ensures var m := MembersAnswer(glob, all);
            ClassAnswer(glob, ReadClass(text))
              == if m.None? then None else Some((ClassRegex(StartsWithMark(text), m.value.0), m.value.1))
  {
  }

  /** A class is its members behind the mark. */
  lemma ClassIs(glob: string, start: nat, negate: bool, index: nat, all: Read<seq<Range>>)
    requires start < |glob| && negate == (start + 1 < |glob| && IsMark(glob[start + 1]))
    requires index == start + (if negate then 2 else 1) && all == ReadItems(glob[index..], true)
    ensures ClassAnswer(glob, ReadClass(glob[start + 1..]))
         == var m := MembersAnswer(glob, all); if m.None? then None else Some((ClassRegex(negate, m.value.0), m.value.1))
  {
    BehindMark(glob, start, negate, index);
    MembersOfClass(glob, glob[start + 1..], all);
  }

  /** One member of a class: a character or a range, each end plain or escaped. */
  method ReadMember(glob: string, start: nat, ghost first: bool) returns (r: Option<(Range, nat)>, ghost low: nat)
    requires start < |glob| && !(glob[start] == ']' && !first)
    ensures MemberFound(glob, start, first, r, low)
  {
    var length, index, c := |glob|, start, glob[start];
    low := index;
    if c == '\\' {
      if index + 1 >= length {
        return None, low;
      }
      index := index + 1;
      c := glob[index];
      low := index;
    }
    BehindMember(glob, start, low);
    if index + 2 < length && glob[index + 1] == '-' && glob[index + 2] != ']' {
      var high := glob[index + 2];
      var consumed := 3;
      if high == '\\' {
        if index + 3 >= length {
          return None, low;
        }
        high := glob[index + 3];
        consumed := 4;
      }
      if high < c {
        return None, low;
      }
      return Some((Range(c, high), index + consumed)), low;
    }
    return Some((Range(c, c), index + 1)), low;
  }

  /** What the pieces already read contribute to the alternatives of a group. */
  function WithAlternatives(done: seq<string>, current: string, r: Read<seq<string>>): Read<seq<string>> {
    if r.NotRead? || r.value == [] then NotRead else Read(done + [current + r.value[0]] + r.value[1..], r.rest)
  }

  lemma PieceDone(done: seq<string>, current: string, piece: string, r: Read<seq<string>>)
    ensures WithAlternatives(done, current, WithPiece(piece, r)) == WithAlternatives(done, current + piece, r)
  {
    if r.Read? && r.value != [] {
      assert current + (piece + r.value[0]) == (current + piece) + r.value[0];
    }
  }

  lemma AlternativeDone(done: seq<string>, current: string, r: Read<seq<string>>)
    requires r.Read? && r.value != []
    ensures WithAlternatives(done, current, Read([""] + r.value, r.rest)) == WithAlternatives(done + [current], "", r)
  {
    assert current + "" == current && "" + r.value[0] == r.value[0];
    assert ([""] + r.value)[1..] == r.value;
    assert done + [current] + r.value == (done + [current]) + [r.value[0]] + r.value[1..];
  }

  lemma CloseStep(glob: string, at: nat)
    requires at < |glob| && glob[at] != ']'
    ensures var next := at + if glob[at] == '\\' then 2 else 1;
            SkipToClose(glob[at..]) == if next <= |glob| then SkipToClose(glob[next..]) else None
  {
    var text := glob[at..];
    assert text[1..] == glob[at + 1..];
    if |text| >= 2 {
      assert text[2..] == glob[at + 2..];
    }
  }

  lemma ClassOpensAt(glob: string, index: nat, end: nat)
    requires index < end <= |glob| && end == index + 1 + ClassOpening(glob[index + 1..])
    ensures SkipClass(glob[index + 1..]) == SkipToClose(glob[end..])
  {
    assert glob[index + 1..][end - index - 1..] == glob[end..];
  }

  /** Where a class ends for the scan of a group: the index after its closing bracket. */
  method ScanClass(glob: string, index: nat) returns (end: nat)
    requires index < |glob|
    ensures var after := SkipClass(glob[index + 1..]);
            if after.None? then end >= |glob| else index < end < |glob| && glob[end + 1..] == after.value
  {
    end := index + 1;
    if end < |glob| && IsMark(glob[end]) {
      end := end + 1;
    }
    if end < |glob| && glob[end] == ']' {
      end := end + 1;
    }
    ClassOpensAt(glob, index, end);
    end := ScanToClose(glob, end);
  }

  method ScanToClose(glob: string, start: nat) returns (end: nat)
    requires start <= |glob|
    ensures var after := SkipToClose(glob[start..]);
            if after.None? then end >= |glob| else start <= end < |glob| && glob[end + 1..] == after.value
  {
    end := start;
    while end < |glob| && glob[end] != ']'
      invariant start <= end
      invariant end <= |glob| ==> SkipToClose(glob[start..]) == SkipToClose(glob[end..])
      invariant end > |glob| ==> SkipToClose(glob[start..]) == None
      decreases |glob| - end
    {
      CloseStep(glob, end);
      end := end + if glob[end] == '\\' then 2 else 1;
    }
  }

  /** The scan of a group that is split into `all` has reached `index`. */
  predicate Scanned(all: Read<seq<string>>, glob: string, index: nat, alternatives: seq<string>, current: string) {
    index <= |glob| && all == WithAlternatives(alternatives, current, SplitGroup(glob[index..]))
  }

  lemma ScanStarts(glob: string, index: nat)
    requires index <= |glob|
    ensures Scanned(SplitGroup(glob[index..]), glob, index, [], "")
  {
    var group := SplitGroup(glob[index..]);
    if group.Read? {
      assert "" + group.value[0] == group.value[0];
      assert [] + [group.value[0]] + group.value[1..] == group.value;
    }
  }

  /** `next` is the index after the escape, class or plain character at `index`. */
  predicate PieceEndsAt(glob: string, index: nat, next: nat) {
    && index < next <= |glob| && glob[index] !in "{,}"
    && if glob[index] == '\\' then next == index + 2
       else if glob[index] == '[' then SkipClass(glob[index + 1..]) == Some(glob[next..])
       else next == index + 1
  }

  lemma PieceAt(glob: string, index: nat, next: nat)
    requires PieceEndsAt(glob, index, next)
    ensures SplitGroup(glob[index..]) == WithPiece(glob[index..next], SplitGroup(glob[next..]))
  {
    SubString(glob, index, next);
    PieceIsSplit(glob[index..], next - index);
  }

  lemma ScanPiece(all: Read<seq<string>>, glob: string, index: nat, next: nat, alternatives: seq<string>, current: string)
    requires Scanned(all, glob, index, alternatives, current) && PieceEndsAt(glob, index, next)
    ensures Scanned(all, glob, next, alternatives, current + glob[index..next])
  {
    PieceAt(glob, index, next);
    PieceDone(alternatives, current, glob[index..next], SplitGroup(glob[next..]));
  }

  predicate PieceFound(glob: string, index: nat, next: Option<nat>)
    requires index < |glob|
  {
    if next.Some? then PieceEndsAt(glob, index, next.value) else SplitGroup(glob[index..]).NotRead?
  }

  method PieceEnd(glob: string, index: nat) returns (next: Option<nat>)
    requires index < |glob| && glob[index] !in "{,}"
    ensures PieceFound(glob, index, next)
  {
    assert glob[index..][1..] == glob[index + 1..];
    if glob[index] == '\\' {
      return if index + 1 >= |glob| then None else Some(index + 2);
    } else if glob[index] == '[' {
      var end := ScanClass(glob, index);
      return if end >= |glob| then None else Some(end + 1);
    }
    return Some(index + 1);
  }

  lemma ScanComma(all: Read<seq<string>>, glob: string, index: nat, alternatives: seq<string>, current: string)
    requires Scanned(all, glob, index, alternatives, current) && index < |glob| && glob[index] == ','
    ensures Scanned(all, glob, index + 1, alternatives + [current], "")
  {
    assert glob[index..][1..] == glob[index + 1..];
    var r := SplitGroup(glob[index + 1..]);
    if r.Read? {
      AlternativeDone(alternatives, current, r);
    }
  }

  /** A scan answers what a group is split into and the index behind it. */
  predicate GroupScanned(g: Read<seq<string>>, glob: string, r: Option<(seq<string>, nat)>) {
    if g.NotRead? then r == None
    else |g.rest| <= |glob| && r == Some((g.value, |glob| - |g.rest|)) && glob[|glob| - |g.rest|..] == g.rest
  }

  lemma ScanEnds(all: Read<seq<string>>, glob: string, index: nat, alternatives: seq<string>, current: string)
    requires Scanned(all, glob, index, alternatives, current) && index < |glob| && glob[index] == '}'
    ensures GroupScanned(all, glob, Some((alternatives + [current], index + 1)))
  {
    assert glob[index..][1..] == glob[index + 1..];
    var texts := [""];
    assert SplitGroup(glob[index..]) == Read(texts, glob[index + 1..]);
    assert current + "" == current && alternatives + [current] + texts[1..] == alternatives + [current];
  }

  lemma ScanFails(all: Read<seq<string>>, glob: string, index: nat, alternatives: seq<string>, current: string)
    requires Scanned(all, glob, index, alternatives, current) && SplitGroup(glob[index..]).NotRead?
    ensures GroupScanned(all, glob, None)
  {
  }

  lemma NoGroupInside(glob: string, index: nat)
    requires index == |glob| || (index < |glob| && glob[index] == '{')
    ensures SplitGroup(glob[index..]).NotRead?
  {
  }

  lemma ScanGoesOn(all: Read<seq<string>>, glob: string, index: nat, next: Option<nat>, alternatives: seq<string>, current: string)
    requires Scanned(all, glob, index, alternatives, current) && index < |glob| && PieceFound(glob, index, next)
    ensures if next.None? then GroupScanned(all, glob, None)
            else index < next.value <= |glob| && Scanned(all, glob, next.value, alternatives, current + glob[index..next.value])
  {
    if next.None? {
      ScanFails(all, glob, index, alternatives, current);
    } else {
      ScanPiece(all, glob, index, next.value, alternatives, current);
    }
  }

  /** Where the scan meets the end of the text or a group inside, there is no group. */
  lemma ScanStops(all: Read<seq<string>>, glob: string, index: nat, alternatives: seq<string>, current: string)
    requires Scanned(all, glob, index, alternatives, current)
    requires index == |glob| || (index < |glob| && glob[index] == '{')
    ensures GroupScanned(all, glob, None)
  {
    NoGroupInside(glob, index);
    ScanFails(all, glob, index, alternatives, current);
  }

  /** The alternatives of the group that opens at `start`, and the index after it. */
  method ScanGroup(glob: string, start: nat) returns (r: Option<(seq<string>, nat)>)
    requires start < |glob| && glob[start] == '{'
    ensures GroupScanned(SplitGroup(glob[start + 1..]), glob, r)
  {
    var length := |glob|;
    var index := start + 1;
    var alternatives: seq<string> := [];
    var current := "";
    ghost var all := SplitGroup(glob[index..]);
    ScanStarts(glob, index);
    while index < length
      invariant start < index && Scanned(all, glob, index, alternatives, current)
    {
      var c := glob[index];
      if c == '{' {
        ScanStops(all, glob, index, alternatives, current);
        return None;
      } else if c == ',' {
        ScanComma(all, glob, index, alternatives, current);
        alternatives := alternatives + [current];
        current := "";
        index := index + 1;
      } else if c == '}' {
        ScanEnds(all, glob, index, alternatives, current);
        return Some((alternatives + [current], index + 1));
      } else {
        var next := PieceEnd(glob, index);
        ScanGoesOn(all, glob, index, next, alternatives, current);
        if next.None? {
          return None;
        }
        current := current + glob[index..next.value];
        index := next.value;
      }
    }
    ScanStops(all, glob, index, alternatives, current);
    r := None;
  }

  /** A group from its opening brace at `start`. A group or a recursive wildcard inside it refuses the glob. */
  method AlternationToRegex(glob: string, start: nat, counter: Counter) returns (r: Option<(Regex, nat)>)
    requires start < |glob| && glob[start] == '{'
    modifies counter
    ensures GroupResult(glob, start, r, counter.wildcards - old(counter.wildcards))
    decreases |glob|, 1
  {
    var scanned := ScanGroup(glob, start);
    if scanned.None? {
      return None;
    }
    ghost var before := counter.wildcards;
    ScannedFit(glob, start, scanned.value);
    var translated := TranslateAlternatives(scanned.value.0, |glob|, counter);
    GroupFollows(glob, start, scanned.value, translated, counter.wildcards - before);
    if translated.None? {
      return None;
    }
    return Some((AnyOf(translated.value), scanned.value.1));
  }

  lemma ScannedFit(glob: string, start: nat, scanned: (seq<string>, nat))
    requires start < |glob| && GroupScanned(SplitGroup(glob[start + 1..]), glob, Some(scanned))
    ensures Fit(scanned.0, |glob|)
  {
  }

  lemma GroupFollows(glob: string, start: nat, scanned: (seq<string>, nat), translated: Option<seq<Regex>>, counted: int)
    requires start < |glob| && GroupScanned(SplitGroup(glob[start + 1..]), glob, Some(scanned)) && Fit(scanned.0, |glob|)
    requires AlternativesResult(scanned.0, |glob|, translated, counted)
    ensures GroupResult(glob, start, if translated.None? then None else Some((AnyOf(translated.value), scanned.1)), counted)
  {
  }

  /** What `AlternationToRegex` answers, and by how much the counter grew where it accepts. */
  predicate GroupResult(glob: string, start: nat, r: Option<(Regex, nat)>, counted: int)
    requires start < |glob|
  {
    var g := SplitGroup(glob[start + 1..]);
    if g.NotRead? then r == None
    else
      var t := TranslateAll(g.value, |glob|);
      r == GroupAnswer(glob, g.rest, t) && (r.Some? ==> counted == t.wildcards)
  }

  /** The answer to a group whose alternatives translate to `t`, with `rest` behind it. */
  function GroupAnswer(glob: string, rest: string, t: Translation): Option<(Regex, nat)>
    requires |rest| <= |glob|
  {
    if t.Refused? || t.parts == [] then None else Some((AnyOf(t.parts), |glob| - |rest|))
  }

  predicate Fit(alternatives: seq<string>, bound: nat) {
    forall k :: 0 <= k < |alternatives| ==> |alternatives[k]| < bound
  }

  /** `all` is the translation of all alternatives; what is before `left` has given `sources` and this many wildcards. */
  ghost predicate AlternativesLeft(all: Translation, left: seq<string>, bound: nat, sources: seq<Regex>, counted: int) {
    exists t :: Fit(left, bound) && t == TranslateAll(left, bound) && IsLeft(all, sources, counted, t)
  }

  predicate IsLeft(all: Translation, sources: seq<Regex>, counted: int, t: Translation) {
    counted >= 0 && all == PrependAll(sources, counted, t)
  }

  /** What the translation of all alternatives answers, and by how much the counter grew where it accepts. */
  predicate AllAnswer(all: Translation, translated: Option<seq<Regex>>, counted: int) {
    if all.Refused? then translated == None else translated == Some(all.parts) && counted == all.wildcards
  }

  ghost predicate AlternativesResult(alternatives: seq<string>, bound: nat, translated: Option<seq<Regex>>, counted: int) {
    exists all :: Fit(alternatives, bound) && all == TranslateAll(alternatives, bound) && AllAnswer(all, translated, counted)
  }

  method TranslateAlternatives(alternatives: seq<string>, bound: nat, counter: Counter)
    returns (translated: Option<seq<Regex>>)
    requires Fit(alternatives, bound)
    modifies counter
    ensures AlternativesResult(alternatives, bound, translated, counter.wildcards - old(counter.wildcards))
    decreases bound, 0
  {
    var sources: seq<Regex> := [];
    var k := 0;
    ghost var all := AlternativesBegin(alternatives, bound);
    while k < |alternatives|
      invariant k <= |alternatives| && AlternativesLeft(all, alternatives[k..], bound, sources, counter.wildcards - old(counter.wildcards))
    {
      ghost var count := counter.wildcards;
      FirstFits(all, alternatives, k, bound, sources, count - old(counter.wildcards));
      var source := TranslateAlternative(alternatives[k], counter);
      NextAlternative(all, alternatives, k, bound, sources, count - old(counter.wildcards), source, counter.wildcards - count);
      if source.None? {
        AnswerIs(all, alternatives, bound, None, counter.wildcards - old(counter.wildcards));
        return None;
      }
      sources := sources + [source.value];
      k := k + 1;
    }
    AlternativesEnd(all, alternatives[k..], bound, sources, counter.wildcards - old(counter.wildcards));
    AnswerIs(all, alternatives, bound, Some(sources), counter.wildcards - old(counter.wildcards));
    return Some(sources);
  }

  lemma AlternativesBegin(alternatives: seq<string>, bound: nat) returns (all: Translation)
    requires Fit(alternatives, bound)
    ensures AlternativesLeft(all, alternatives, bound, [], 0) && alternatives[0..] == alternatives
  {
    all := TranslateAll(alternatives, bound);
    NothingPrepended(all);
    assert IsLeft(all, [], 0, all);
  }

  lemma NothingPrepended(t: Translation)
    ensures PrependAll([], 0, t) == t
  {
    if t.Accepted? {
      assert [] + t.parts == t.parts;
    }
  }

  lemma AnswerIs(all: Translation, alternatives: seq<string>, bound: nat, translated: Option<seq<Regex>>, counted: int)
    requires AlternativesLeft(all, alternatives, bound, [], 0) && AllAnswer(all, translated, counted)
    ensures AlternativesResult(alternatives, bound, translated, counted)
  {
    NothingPrepended(TranslateAll(alternatives, bound));
  }

  lemma FirstFits(all: Translation, alternatives: seq<string>, k: nat, bound: nat, sources: seq<Regex>, counted: int)
    requires k < |alternatives| && AlternativesLeft(all, alternatives[k..], bound, sources, counted)
    ensures |alternatives[k]| < bound && counted >= 0
  {
    assert alternatives[k..][0] == alternatives[k];
  }

  lemma AlternativesEnd(all: Translation, left: seq<string>, bound: nat, sources: seq<Regex>, counted: int)
    requires left == [] && AlternativesLeft(all, left, bound, sources, counted)
    ensures all == Accepted(sources, counted)
  {
    assert sources + [] == sources;
  }

  /** What the translation of one alternative answers, and by how much the counter grew where it accepts. */
  ghost predicate OneResult(text: string, source: Option<Regex>, counted: int) {
    exists t :: t == Translate(text, true, false) && OneAnswer(t, text, source, counted)
  }

  predicate OneAnswer(t: Translation, text: string, source: Option<Regex>, counted: int) {
    if text == "" || t.Refused? then source == None else source == Some(Joined(t.parts)) && counted == t.wildcards
  }

  method TranslateAlternative(text: string, counter: Counter) returns (source: Option<Regex>)
    modifies counter
    ensures OneResult(text, source, counter.wildcards - old(counter.wildcards))
    decreases |text|, 4
  {
    ghost var t := Translate(text, true, false);
    if text == "" {
      assert OneAnswer(t, text, None, 0);
      return None;
    }
    source := GlobToRegex(text, counter, false);
    assert OneAnswer(t, text, source, counter.wildcards - old(counter.wildcards));
  }

  lemma NextAlternative(all: Translation, alternatives: seq<string>, k: nat, bound: nat, sources: seq<Regex>, counted: int,
                        source: Option<Regex>, n: int)
    requires k < |alternatives| && AlternativesLeft(all, alternatives[k..], bound, sources, counted)
    requires OneResult(alternatives[k], source, n)
    ensures source.None? ==> all.Refused?
    ensures source.Some? ==> AlternativesLeft(all, alternatives[k + 1..], bound, sources + [source.value], counted + n)
  {
    var left, rest := alternatives[k..], alternatives[k + 1..];
    assert left[0] == alternatives[k] && left[1..] == rest;
    if source.Some? {
      FitBehind(left, rest, bound);
      PartDone(sources, counted, source.value, n, TranslateAll(rest, bound));
      assert IsLeft(all, sources + [source.value], counted + n, TranslateAll(rest, bound));
    }
  }

  lemma FitBehind(left: seq<string>, rest: seq<string>, bound: nat)
    requires left != [] && rest == left[1..] && Fit(left, bound)
    ensures Fit(rest, bound)
  {
  }

  function PrependAll(parts: seq<Regex>, wildcards: nat, t: Translation): Translation {
    if t.Refused? then Refused else Accepted(parts + t.parts, wildcards + t.wildcards)
  }

  predicate ComponentStart(glob: string, index: nat)
    requires index <= |glob|
  {
    index == 0 || glob[index - 1] == '/'
  }

  function TranslateFrom(glob: string, index: nat, deep: bool): Translation
    requires index <= |glob|
  {
    Translate(glob[index..], ComponentStart(glob, index), deep)
  }

  /** `all` is the translation of `glob`; what is before `index` has given these parts and this count. */
  ghost predicate Translated(all: Translation, glob: string, deep: bool, index: nat, parts: seq<Regex>, wildcards: int) {
    exists t :: index <= |glob| && t == TranslateFrom(glob, index, deep) && IsLeft(all, parts, wildcards, t)
  }

  /** `here` is the translation from `index` on: what the construct there gives, the index after it and its wildcards. */
  predicate Gives(here: Translation, glob: string, index: nat, deep: bool, r: Option<(Regex, nat)>, counted: int) {
    if r.None? then here.Refused?
    else
      && index < r.value.1 <= |glob| && counted >= 0
      && here == Prepend(r.value.0, counted, TranslateFrom(glob, r.value.1, deep))
  }

  ghost predicate ConstructResult(glob: string, index: nat, deep: bool, r: Option<(Regex, nat)>, counted: int)
    requires index < |glob|
  {
    exists here :: here == TranslateFrom(glob, index, deep) && Gives(here, glob, index, deep, r, counted)
  }

  lemma Advance(all: Translation, glob: string, deep: bool, index: nat, parts: seq<Regex>, wildcards: int,
                construct: Option<(Regex, nat)>, n: int)
    requires index < |glob| && Translated(all, glob, deep, index, parts, wildcards)
    requires ConstructResult(glob, index, deep, construct, n)
    ensures construct.None? ==> all.Refused?
    ensures construct.Some? ==>
              var (part, next) := construct.value;
              index < next && Translated(all, glob, deep, next, parts + [part], wildcards + n)
  {
    var here :| here == TranslateFrom(glob, index, deep) && Gives(here, glob, index, deep, construct, n);
    if construct.Some? {
      var (part, next) := construct.value;
      PartDone(parts, wildcards, part, n, TranslateFrom(glob, next, deep));
      assert IsLeft(all, parts + [part], wildcards + n, TranslateFrom(glob, next, deep));
    }
  }

  lemma PartDone(parts: seq<Regex>, wildcards: nat, part: Regex, n: nat, t: Translation)
    ensures PrependAll(parts, wildcards, Prepend(part, n, t)) == PrependAll(parts + [part], wildcards + n, t)
  {
    if t.Accepted? {
      assert parts + ([part] + t.parts) == (parts + [part]) + t.parts;
    }
  }

  // ---- each construct ---------------------------------------------------------------------------------------

  lemma EscapeStep(glob: string, deep: bool, index: nat)
    requires index < |glob| && glob[index] == '\\'
    ensures ConstructResult(glob, index, deep, if index + 1 < |glob| then Some((Literal(glob[index + 1]), index + 2)) else None, 0)
  {
    var r := if index + 1 < |glob| then Some((Literal(glob[index + 1]), index + 2)) else None;
    if index + 1 < |glob| {
      SubString(glob, index, index + 2);
    }
    assert Gives(TranslateFrom(glob, index, deep), glob, index, deep, r, 0);
  }

  lemma OneStep(glob: string, deep: bool, index: nat)
    requires index < |glob| && glob[index] == '?'
    ensures ConstructResult(glob, index, deep, Some((NotSlash, index + 1)), 1)
  {
    SubString(glob, index, index + 1);
    assert Gives(TranslateFrom(glob, index, deep), glob, index, deep, Some((NotSlash, index + 1)), 1);
  }

  lemma PlainStep(glob: string, deep: bool, index: nat)
    requires index < |glob| && glob[index] !in "\\?*[{}"
    ensures ConstructResult(glob, index, deep, Some((Literal(glob[index]), index + 1)), 0)
  {
    SubString(glob, index, index + 1);
    assert Gives(TranslateFrom(glob, index, deep), glob, index, deep, Some((Literal(glob[index]), index + 1)), 0);
  }

  lemma LoneBraceStep(glob: string, deep: bool, index: nat)
    requires index < |glob| && glob[index] == '}'
    ensures ConstructResult(glob, index, deep, None, 0)
  {
    assert Gives(TranslateFrom(glob, index, deep), glob, index, deep, None, 0);
  }

  lemma StarStep(glob: string, deep: bool, index: nat)
    requires index < |glob| && Stars(glob[index..]) == 1
    ensures ConstructResult(glob, index, deep, Some((Star(NotSlash), index + 1)), 1)
  {
    SubString(glob, index, index + 1);
    assert glob[index..][0] == '*';
    assert Gives(TranslateFrom(glob, index, deep), glob, index, deep, Some((Star(NotSlash), index + 1)), 1);
  }

  lemma DeepPrefixStep(glob: string, index: nat)
    requires index + 2 < |glob| && Stars(glob[index..]) == 2 && ComponentStart(glob, index) && glob[index + 2] == '/'
    ensures ConstructResult(glob, index, true, Some((ANY_PREFIX, index + 3)), 1)
  {
    SubString(glob, index, index + 3);
    assert glob[index..][0] == '*';
    assert Gives(TranslateFrom(glob, index, true), glob, index, true, Some((ANY_PREFIX, index + 3)), 1);
  }

  lemma DeepRestStep(glob: string, index: nat)
    requires index + 2 == |glob| && Stars(glob[index..]) == 2 && ComponentStart(glob, index)
    ensures ConstructResult(glob, index, true, Some((Star(AnyChar), index + 2)), 1)
  {
    assert glob[index..][0] == '*' && glob[index + 2..] == "";
    assert Gives(TranslateFrom(glob, index, true), glob, index, true, Some((Star(AnyChar), index + 2)), 1);
  }

  lemma StarsRefused(glob: string, deep: bool, index: nat, stars: nat)
    requires index < |glob| && glob[index] == '*' && stars == Stars(glob[index..]) && stars != 1
    requires stars == 2 && deep && ComponentStart(glob, index) ==>
               index + 2 != |glob| && (index + 2 < |glob| ==> glob[index + 2] != '/')
    ensures ConstructResult(glob, index, deep, None, 0)
  {
    assert Gives(TranslateFrom(glob, index, deep), glob, index, deep, None, 0);
  }

  /** `rest` is what follows the bracket or brace that closes what opens at `index`. */
  predicate Behind(glob: string, index: nat, rest: string) {
    var next := |glob| - |rest|;
    index < next <= |glob| && glob[next - 1] != '/' && glob[next..] == rest
  }

  lemma FromBehind(glob: string, deep: bool, index: nat, rest: string)
    requires Behind(glob, index, rest)
    ensures TranslateFrom(glob, |glob| - |rest|, deep) == Translate(rest, false, deep)
  {
  }

  lemma BehindClass(glob: string, index: nat, rest: string)
    requires index < |glob| && ReadClass(glob[index + 1..]).Read? && rest == ReadClass(glob[index + 1..]).rest
    ensures Behind(glob, index, rest)
  {
    var text := glob[index + 1..];
    EndOfClass(text, rest);
    SuffixOfSuffix(glob, index, text, rest);
  }

  lemma EndOfClass(text: string, rest: string)
    requires ReadClass(text).Read? && rest == ReadClass(text).rest
    ensures |rest| < |text| && text[|text| - |rest|..] == rest && text[|text| - |rest| - 1] == ']'
  {
    var atom := SoundClass(text);
    ClassIsBracketed(atom);
    BracketedEnd(text, SpellAtom(atom), rest);
  }

  lemma BracketedEnd(text: string, spelled: string, rest: string)
    requires "[" + text == spelled + rest && |spelled| > 1 && spelled[|spelled| - 1] == ']'
    ensures |rest| < |text| && text[|text| - |rest|..] == rest && text[|text| - |rest| - 1] == ']'
  {
    var whole := "[" + text;
    Suffix(whole, spelled, rest);
    assert whole[1..] == text;
  }

  lemma SuffixOfSuffix(glob: string, index: nat, text: string, rest: string)
    requires index < |glob| && text == glob[index + 1..] && |rest| < |text| && text[|text| - |rest|..] == rest
    ensures index < |glob| - |rest| <= |glob| && glob[|glob| - |rest|..] == rest
    ensures glob[|glob| - |rest| - 1] == text[|text| - |rest| - 1]
  {
  }

  lemma Suffix(whole: string, front: string, rest: string)
    requires whole == front + rest && front != ""
    ensures whole[|whole| - |rest|..] == rest && whole[|whole| - |rest| - 1] == front[|front| - 1]
  {
  }

  lemma ClassGives(here: Translation, after: Translation, glob: string, deep: bool, index: nat, value: Regex, rest: string)
    requires Behind(glob, index, rest) && after == TranslateFrom(glob, |glob| - |rest|, deep) && here == Prepend(value, 1, after)
    ensures Gives(here, glob, index, deep, Some((value, |glob| - |rest|)), 1)
  {
  }

  lemma NoClass(glob: string, deep: bool, index: nat)
    requires index < |glob| && glob[index] == '[' && ReadClass(glob[index + 1..]).NotRead?
    ensures ConstructResult(glob, index, deep, None, 0)
  {
    SubString(glob, index, index + 1);
    ClassTranslates(glob[index..], ComponentStart(glob, index), deep, NotRead);
    assert Gives(TranslateFrom(glob, index, deep), glob, index, deep, None, 0);
  }

  lemma ReadClassStep(glob: string, deep: bool, index: nat, value: Regex, rest: string)
    requires index < |glob| && glob[index] == '[' && ReadClass(glob[index + 1..]) == Read(value, rest) && |rest| <= |glob|
    ensures ConstructResult(glob, index, deep, Some((value, |glob| - |rest|)), 1)
  {
    SubString(glob, index, index + 1);
    ClassTranslates(glob[index..], ComponentStart(glob, index), deep, Read(value, rest));
    BehindClass(glob, index, rest);
    FromBehind(glob, deep, index, rest);
    ClassGives(TranslateFrom(glob, index, deep), Translate(rest, false, deep), glob, deep, index, value, rest);
  }

  lemma ClassStep(glob: string, deep: bool, index: nat, r: Option<(Regex, nat)>)
    requires index < |glob| && glob[index] == '[' && r == ClassAnswer(glob, ReadClass(glob[index + 1..]))
    ensures ConstructResult(glob, index, deep, r, if r.Some? then 1 else 0)
  {
    var c := ReadClass(glob[index + 1..]);
    if c.NotRead? {
      NoClass(glob, deep, index);
    } else {
      ReadClassStep(glob, deep, index, c.value, c.rest);
    }
  }

  /** A group whose alternatives translate to `t`, in front of what follows it. */
  function WithGroup(t: Translation, rest: Translation): Translation {
    if t.Refused? || t.parts == [] then Refused else Prepend(AnyOf(t.parts), t.wildcards, rest)
  }

  /** One unfolding of the translation, at a group. */
  lemma GroupTranslates(text: string, start: bool, deep: bool, g: Read<seq<string>>)
    requires text != "" && text[0] == '{' && g == SplitGroup(text[1..])
    ensures g.NotRead? ==> Translate(text, start, deep).Refused?
    ensures g.Read? ==>
              Translate(text, start, deep) == WithGroup(TranslateAll(g.value, |text|), Translate(g.rest, false, deep))
  {
  }

  lemma GroupMeans(glob: string, deep: bool, index: nat, g: Read<seq<string>>, t: Translation)
    requires index < |glob| && glob[index] == '{' && g == SplitGroup(glob[index + 1..]) && g.Read?
    requires t == TranslateAll(g.value, |glob|)
    ensures TranslateFrom(glob, index, deep)
         == WithGroup(t, Translate(g.rest, false, deep))
  {
    SubString(glob, index, index + 1);
    BoundIsIrrelevant(g.value, |glob| - index, |glob|);
    GroupTranslates(glob[index..], ComponentStart(glob, index), deep, g);
  }

  lemma BehindGroup(glob: string, index: nat, rest: string)
    requires index < |glob| && SplitGroup(glob[index + 1..]).Read? && rest == SplitGroup(glob[index + 1..]).rest
    ensures Behind(glob, index, rest)
  {
    var text := glob[index + 1..];
    SplitKeepsText(text);
    var inside := JoinTexts(SplitGroup(text).value);
    assert text == inside + "}" + rest;
    assert text[|inside| + 1..] == rest && text[|inside|] == '}';
  }

  lemma GroupGives(here: Translation, after: Translation, glob: string, deep: bool, index: nat, rest: string, t: Translation,
                   r: Option<(Regex, nat)>, counted: int)
    requires Behind(glob, index, rest) && r == GroupAnswer(glob, rest, t) && (r.Some? ==> counted == t.wildcards)
    requires here == WithGroup(t, after) && after == TranslateFrom(glob, |glob| - |rest|, deep)
    ensures Gives(here, glob, index, deep, r, counted)
  {
  }

  lemma GroupTranslated(glob: string, deep: bool, index: nat, rest: string, t: Translation, r: Option<(Regex, nat)>, counted: int)
    requires index < |glob| && Behind(glob, index, rest) && r == GroupAnswer(glob, rest, t) && (r.Some? ==> counted == t.wildcards)
    requires TranslateFrom(glob, index, deep) == WithGroup(t, Translate(rest, false, deep))
    ensures ConstructResult(glob, index, deep, r, counted)
  {
    var here, after := TranslateFrom(glob, index, deep), Translate(rest, false, deep);
    FromBehind(glob, deep, index, rest);
    GroupGives(here, after, glob, deep, index, rest, t, r, counted);
  }

  lemma NoGroup(glob: string, deep: bool, index: nat, counted: int)
    requires index < |glob| && glob[index] == '{' && SplitGroup(glob[index + 1..]).NotRead?
    ensures ConstructResult(glob, index, deep, None, counted)
  {
    SubString(glob, index, index + 1);
    GroupTranslates(glob[index..], ComponentStart(glob, index), deep, NotRead);
    assert Gives(TranslateFrom(glob, index, deep), glob, index, deep, None, counted);
  }

  lemma ReadGroupStep(glob: string, deep: bool, index: nat, g: Read<seq<string>>, t: Translation,
                      r: Option<(Regex, nat)>, counted: int)
    requires index < |glob| && glob[index] == '{' && g == SplitGroup(glob[index + 1..]) && g.Read?
    requires t == TranslateAll(g.value, |glob|) && r == GroupAnswer(glob, g.rest, t) && (r.Some? ==> counted == t.wildcards)
    ensures ConstructResult(glob, index, deep, r, counted)
  {
    GroupMeans(glob, deep, index, g, t);
    BehindGroup(glob, index, g.rest);
    GroupTranslated(glob, deep, index, g.rest, t, r, counted);
  }

  lemma GroupStep(glob: string, deep: bool, index: nat, r: Option<(Regex, nat)>, counted: int)
    requires index < |glob| && glob[index] == '{' && GroupResult(glob, index, r, counted)
    ensures ConstructResult(glob, index, deep, r, counted)
  {
    var g := SplitGroup(glob[index + 1..]);
    if g.NotRead? {
      NoGroup(glob, deep, index, counted);
    } else {
      ReadGroupStep(glob, deep, index, g, TranslateAll(g.value, |glob|), r, counted);
    }
  }

  /** The construct that begins at `index`: its expression and the index after it. */
  method TranslateConstruct(glob: string, index: nat, counter: Counter, allowRecursive: bool)
    returns (r: Option<(Regex, nat)>)
    requires index < |glob|
    modifies counter
    ensures ConstructResult(glob, index, allowRecursive, r, counter.wildcards - old(counter.wildcards))
    decreases |glob|, 2
  {
    var c := glob[index];
    if c == '[' {
      r := ClassToRegex(glob, index);
      ClassStep(glob, allowRecursive, index, r);
      if r.Some? {
        counter.wildcards := counter.wildcards + 1;
      }
    } else if c == '{' {
      ghost var before := counter.wildcards;
      r := AlternationToRegex(glob, index, counter);
      GroupStep(glob, allowRecursive, index, r, counter.wildcards - before);
    } else if c == '*' {
      r := TranslateStars(glob, index, counter, allowRecursive);
    } else {
      r := TranslateSimple(glob, index, counter, allowRecursive);
    }
  }

  /** Stars: one within a component, or two that are components of their own. */
  method TranslateStars(glob: string, index: nat, counter: Counter, allowRecursive: bool)
    returns (r: Option<(Regex, nat)>)
    requires index < |glob| && glob[index] == '*'
    modifies counter
    ensures ConstructResult(glob, index, allowRecursive, r, counter.wildcards - old(counter.wildcards))
  {
    var length := |glob|;
    var end := CountStars(glob, index);
    var stars := end - index;
    var atComponentStart := index == 0 || glob[index - 1] == '/';
    if stars == 1 {
      StarStep(glob, allowRecursive, index);
      counter.wildcards := counter.wildcards + 1;
      return Some((Star(NotSlash), end));
    }
    if stars == 2 && allowRecursive && atComponentStart {
      if end < length && glob[end] == '/' {
        DeepPrefixStep(glob, index);
        counter.wildcards := counter.wildcards + 1;
        return Some((ANY_PREFIX, end + 1));
      }
      if end == length {
        DeepRestStep(glob, index);
        counter.wildcards := counter.wildcards + 1;
        return Some((Star(AnyChar), end));
      }
    }
    StarsRefused(glob, allowRecursive, index, stars);
    return None;
  }

  /** An escape, a `?` or a plain character. */
  method TranslateSimple(glob: string, index: nat, counter: Counter, ghost deep: bool) returns (r: Option<(Regex, nat)>)
    requires index < |glob| && glob[index] !in "[{*"
    modifies counter
    ensures ConstructResult(glob, index, deep, r, counter.wildcards - old(counter.wildcards))
  {
    var c := glob[index];
    if c == '}' {
      LoneBraceStep(glob, deep, index);
      return None;
    } else if c == '\\' {
      EscapeStep(glob, deep, index);
      return if index + 1 >= |glob| then None else Some((Literal(glob[index + 1]), index + 2));
    } else if c == '?' {
      OneStep(glob, deep, index);
      counter.wildcards := counter.wildcards + 1;
      return Some((NotSlash, index + 1));
    }
    PlainStep(glob, deep, index);
    return Some((Literal(c), index + 1));
  }

  /** The translation refuses the glob, or gives its expression and the wildcards that were counted. */
  predicate GlobAnswer(t: Translation, regex: Option<Regex>, counted: int) {
    if t.Refused? then regex == None else regex == Some(Joined(t.parts)) && counted == t.wildcards
  }

  ghost predicate GlobResult(glob: string, deep: bool, regex: Option<Regex>, counted: int) {
    exists t :: t == Translate(glob, true, deep) && GlobAnswer(t, regex, counted)
  }

  lemma GlobIs(all: Translation, glob: string, deep: bool, regex: Option<Regex>, counted: int)
    requires Translated(all, glob, deep, 0, [], 0) && GlobAnswer(all, regex, counted)
    ensures GlobResult(glob, deep, regex, counted)
  {
    assert glob[0..] == glob;
    NothingPrepended(Translate(glob, true, deep));
  }

  /** Translate a glob; `None` where it is not of the dialect. */
  method GlobToRegex(glob: string, counter: Counter, allowRecursive: bool) returns (regex: Option<Regex>)
    modifies counter
    ensures GlobResult(glob, allowRecursive, regex, counter.wildcards - old(counter.wildcards))
    decreases |glob|, 3
  {
    var parts: seq<Regex> := [];
    var index := 0;
    ghost var all := TranslationStarts(glob, allowRecursive);
    while index < |glob|
      invariant Translated(all, glob, allowRecursive, index, parts, counter.wildcards - old(counter.wildcards))
    {
      ghost var count := counter.wildcards;
      var construct := TranslateConstruct(glob, index, counter, allowRecursive);
      Advance(all, glob, allowRecursive, index, parts, count - old(counter.wildcards), construct, counter.wildcards - count);
      if construct.None? {
        GlobIs(all, glob, allowRecursive, None, counter.wildcards - old(counter.wildcards));
        return None;
      }
      var (part, next) := construct.value;
      parts, index := parts + [part], next;
    }
    TranslationEnds(all, glob, allowRecursive, index, parts, counter.wildcards - old(counter.wildcards));
    GlobIs(all, glob, allowRecursive, Some(Joined(parts)), counter.wildcards - old(counter.wildcards));
    return Some(Joined(parts));
  }

  lemma TranslationStarts(glob: string, deep: bool) returns (all: Translation)
    ensures Translated(all, glob, deep, 0, [], 0)
  {
    assert glob[0..] == glob;
    all := Translate(glob, true, deep);
    NothingPrepended(all);
    assert IsLeft(all, [], 0, all);
  }

  lemma TranslationEnds(all: Translation, glob: string, deep: bool, index: nat, parts: seq<Regex>, wildcards: int)
    requires index >= |glob| && Translated(all, glob, deep, index, parts, wildcards)
    ensures all == Accepted(parts, wildcards)
  {
    assert glob[index..] == "" && parts + [] == parts;
  }

  /** The index after the stars that begin at `index`. */
  method CountStars(glob: string, index: nat) returns (end: nat)
    requires index <= |glob|
    ensures index <= end <= |glob| && end - index == Stars(glob[index..])
  {
    end := index;
    while end < |glob| && glob[end] == '*'
      invariant index <= end <= |glob|
      invariant Stars(glob[index..]) == (end - index) + Stars(glob[end..])
    {
      assert glob[end..][1..] == glob[end + 1..];
      end := end + 1;
    }
  }

  /** The bound on the alternatives only serves termination. */
  lemma {:induction false} BoundIsIrrelevant(texts: seq<string>, a: nat, b: nat)
    requires forall k :: 0 <= k < |texts| ==> |texts[k]| < a && |texts[k]| < b
    ensures TranslateAll(texts, a) == TranslateAll(texts, b)
  {
    if texts != [] {
      BoundIsIrrelevant(texts[1..], a, b);
    }
  }
}
