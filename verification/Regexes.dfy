/**
  The part of Python's regular expressions that the ignore-rule compiler emits, as an abstract syntax with a
  matching relation over positions of the subject (so that a lookahead means what it means in the engine).
*/
module Regexes {

  /** One member of a character class: every character from `lo` to `hi`. */
  datatype Range = Range(lo: char, hi: char)

  datatype Regex =
    | Empty
    | Literal(c: char)
    | AnyChar                                        // `.` under DOTALL
    | NotSlash                                       // `[^/]`
    | NotAhead(c: char)                              // `(?!c)`
    | CharSet(negated: bool, ranges: seq<Range>)
    | Cat(first: Regex, second: Regex)
    | Either(left: Regex, right: Regex)              // `(?:left|right)`
    | Star(body: Regex)
    | Optional(body: Regex)
    | Capture(body: Regex)                           // a numbered group

  ghost predicate InRanges(c: char, ranges: seq<Range>) {
    exists k :: 0 <= k < |ranges| && ranges[k].lo <= c <= ranges[k].hi
  }

  /** `r` can consume exactly the characters of `s` from position `i` to position `j`. */
  ghost predicate Matches(r: Regex, s: string, i: nat, j: nat)
    requires i <= j <= |s|
    decreases r, j - i
  {
    match r
    case Empty => i == j
    case Literal(c) => j == i + 1 && s[i] == c
    case AnyChar => j == i + 1
    case NotSlash => j == i + 1 && s[i] != '/'
    case NotAhead(c) => i == j && !(i < |s| && s[i] == c)
    case CharSet(negated, ranges) => j == i + 1 && InRanges(s[i], ranges) != negated
    case Cat(a, b) => exists k :: i <= k <= j && Matches(a, s, i, k) && Matches(b, s, k, j)
    case Either(a, b) => Matches(a, s, i, j) || Matches(b, s, i, j)
    case Star(b) => i == j || exists k :: i < k <= j && Matches(b, s, i, k) && Matches(r, s, k, j)
    case Optional(b) => i == j || Matches(b, s, i, j)
    case Capture(b) => Matches(b, s, i, j)
  }

  ghost predicate FullMatch(r: Regex, s: string) {
    Matches(r, s, 0, |s|)
  }

  /** How many numbered groups `r` opens. */
  function Captures(r: Regex): nat {
    match r
    case Cat(a, b) => Captures(a) + Captures(b)
    case Either(a, b) => Captures(a) + Captures(b)
    case Star(b) => Captures(b)
    case Optional(b) => Captures(b)
    case Capture(b) => 1 + Captures(b)
    case _ => 0
  }

  /** The expression whose source text is the sources of `parts`, one after the other. */
  function Joined(parts: seq<Regex>): Regex {
    if parts == [] then Empty else Cat(parts[0], Joined(parts[1..]))
  }

  /** The expression whose source text is the sources of `choices`, separated by `|`. */
  function AnyOf(choices: seq<Regex>): Regex
    requires choices != []
  {
    if |choices| == 1 then choices[0] else Either(choices[0], AnyOf(choices[1..]))
  }

  lemma {:induction false} MatchesAnyOf(choices: seq<Regex>, s: string, i: nat, j: nat)
    requires choices != [] && i <= j <= |s|
    ensures Matches(AnyOf(choices), s, i, j) <==> exists k :: 0 <= k < |choices| && Matches(choices[k], s, i, j)
  {
    if |choices| > 1 {
      var rest := choices[1..];
      MatchesAnyOf(rest, s, i, j);
      assert forall k :: 0 <= k < |rest| ==> rest[k] == choices[k + 1];
      assert forall k :: 1 <= k < |choices| ==> choices[k] == rest[k - 1];
    }
  }

  /** `.*` consumes anything. */
  lemma {:induction false} AnythingMatches(s: string, i: nat, j: nat)
    requires i <= j <= |s|
    ensures Matches(Star(AnyChar), s, i, j)
    decreases j - i
  {
    if i < j {
      AnythingMatches(s, i + 1, j);
      assert Matches(AnyChar, s, i, i + 1);
    }
  }

  /** `[^/]*` consumes exactly the stretches without a separator. */
  lemma {:induction false} NotSlashesMatch(s: string, i: nat, j: nat)
    requires i <= j <= |s|
    ensures Matches(Star(NotSlash), s, i, j) <==> '/' !in s[i..j]
    decreases j - i
  {
    if i < j {
      NotSlashesMatch(s, i + 1, j);
      assert s[i..j] == [s[i]] + s[i + 1..j];
      assert Matches(NotSlash, s, i, i + 1) <==> s[i] != '/';
      assert forall k: nat :: i < k <= j && Matches(NotSlash, s, i, k) ==> k == i + 1;
      var r := Star(NotSlash);
      assert Matches(r, s, i, j) <==> exists k: nat :: i < k <= j && Matches(NotSlash, s, i, k) && Matches(r, s, k, j);
    } else {
      assert s[i..j] == [];
    }
  }

  // The optional group of anything followed by a separator consumes nothing, or a stretch that ends in a separator.
  lemma AnyPrefixMatches(s: string, i: nat, j: nat)
    requires i <= j <= |s|
    ensures Matches(Optional(Cat(Star(AnyChar), Literal('/'))), s, i, j) <==> i == j || s[j - 1] == '/'
  {
    var prefix := Cat(Star(AnyChar), Literal('/'));
    if i < j && s[j - 1] == '/' {
      AnythingMatches(s, i, j - 1);
      assert Matches(Literal('/'), s, j - 1, j);
      assert Matches(prefix, s, i, j);
    }
    assert Matches(prefix, s, i, j)
      <==> exists k: nat :: i <= k <= j && Matches(Star(AnyChar), s, i, k) && Matches(Literal('/'), s, k, j);
    assert Matches(Optional(prefix), s, i, j) <==> i == j || Matches(prefix, s, i, j);
  }
}
