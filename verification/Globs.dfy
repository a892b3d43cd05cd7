/**
  The globset dialect of ignore files: an abstract syntax, how each form is spelled, and what it matches.
  Nothing here mentions regular expressions; the compiler is measured against this reading.
*/
module Globs {
  import opened Wrappers

  /** A character inside `[...]`, as written or after a backslash. */
  datatype Spelled = Raw(c: char) | Escaped(c: char)

  datatype ClassItem = One(at: Spelled) | Span(lo: Spelled, hi: Spelled)

  datatype Atom =
    | Plain(c: char)
    | Quoted(c: char)                                            // `\c`
    | AnyOne                                                     // `?`
    | Run                                                        // `*`
    | Class(mark: Option<char>, items: seq<ClassItem>)           // `[ab-c]`, `[!a]`, `[^a]`

  datatype Unit =
    | Simple(atom: Atom)
    | DeepPrefix                                                 // `**` and a separator, at the start of a component
    | DeepRest                                                   // `**` as the whole last component
    | Group(alternatives: seq<seq<Atom>>)                        // `{a,b}`: one level, nothing recursive inside

  // ---- how a glob is spelled ------------------------------------------------------------------------------

  function SpellChar(x: Spelled): string {
    match x
    case Raw(c) => [c]
    case Escaped(c) => ['\\', c]
  }

  function SpellItem(item: ClassItem): string {
    match item
    case One(x) => SpellChar(x)
    case Span(lo, hi) => SpellChar(lo) + "-" + SpellChar(hi)
  }

  function SpellItems(items: seq<ClassItem>): string {
    if items == [] then "" else SpellItem(items[0]) + SpellItems(items[1..])
  }

  function SpellMark(mark: Option<char>): string {
    match mark
    case None => ""
    case Some(c) => [c]
  }

  function SpellAtom(a: Atom): string {
    match a
    case Plain(c) => [c]
    case Quoted(c) => ['\\', c]
    case AnyOne => "?"
    case Run => "*"
    case Class(mark, items) => "[" + SpellMark(mark) + SpellItems(items) + "]"
  }

  function SpellAtoms(atoms: seq<Atom>): string {
    if atoms == [] then "" else SpellAtom(atoms[0]) + SpellAtoms(atoms[1..])
  }

  function SpellAlternatives(alternatives: seq<seq<Atom>>): string {
    if alternatives == [] then ""
    else if |alternatives| == 1 then SpellAtoms(alternatives[0])
    else SpellAtoms(alternatives[0]) + "," + SpellAlternatives(alternatives[1..])
  }

  function SpellUnit(u: Unit): string {
    match u
    case Simple(a) => SpellAtom(a)
    case DeepPrefix => "**/"
    case DeepRest => "**"
    case Group(alternatives) => "{" + SpellAlternatives(alternatives) + "}"
  }

  function Spell(units: seq<Unit>): string {
    if units == [] then "" else SpellUnit(units[0]) + Spell(units[1..])
  }

  // ---- which spellings are unambiguous --------------------------------------------------------------------

  /** What follows a class member and would turn it into the lower end of a range. */
  predicate LooksLikeSpan(text: string) {
    |text| >= 2 && text[0] == '-' && text[1] != ']'
  }

  predicate ReadableChar(x: Spelled, first: bool) {
    x.Escaped? || (x.c != '\\' && (x.c == ']' ==> first))
  }

  /** `next` is the text after the member. */
  predicate ReadableItem(item: ClassItem, next: string, first: bool) {
    match item
    case One(x) => ReadableChar(x, first) && !LooksLikeSpan(next)
    case Span(lo, hi) => ReadableChar(lo, first) && ReadableChar(hi, false) && lo.c <= hi.c
  }

  predicate WellFormedItems(items: seq<ClassItem>, first: bool) {
    items == [] ||
    (ReadableItem(items[0], SpellItems(items[1..]) + "]", first) && WellFormedItems(items[1..], false))
  }

  predicate IsMark(c: char) {
    c == '!' || c == '^'
  }

  predicate WellFormedClass(mark: Option<char>, items: seq<ClassItem>) {
    && items != [] && WellFormedItems(items, true)
    && (if mark.Some? then IsMark(mark.value) else !IsMark(SpellItem(items[0])[0]))
  }

  /** `next` is the text after the atom: a single star must not be followed by another one. */
  predicate WellFormedAtom(a: Atom, next: string) {
    match a
    case Plain(c) => c !in "\\?*[{}"
    case Quoted(_) => true
    case AnyOne => true
    case Run => next == "" || next[0] != '*'
    case Class(mark, items) => WellFormedClass(mark, items)
  }

  /** The atoms of one alternative: a bare comma would end it. */
  predicate WellFormedAtoms(atoms: seq<Atom>) {
    atoms == [] ||
    (WellFormedAtom(atoms[0], SpellAtoms(atoms[1..])) && atoms[0] != Plain(',') && WellFormedAtoms(atoms[1..]))
  }

  predicate EndsInSlash(text: string) {
    text != "" && text[|text| - 1] == '/'
  }

  predicate WellFormedGroup(alternatives: seq<seq<Atom>>) {
    && alternatives != []
    && forall k :: 0 <= k < |alternatives| ==> alternatives[k] != [] && WellFormedAtoms(alternatives[k])
  }

  /** `next` is the text after the unit; `start`: the text before is empty or ends in a separator. */
  predicate WellFormedUnit(u: Unit, next: string, start: bool) {
    match u
    case Simple(a) => WellFormedAtom(a, next)
    case DeepPrefix => start
    case DeepRest => start && next == ""
    case Group(alternatives) => WellFormedGroup(alternatives)
  }

  predicate WellFormed(units: seq<Unit>, start: bool) {
    units == [] ||
    (WellFormedUnit(units[0], Spell(units[1..]), start) && WellFormed(units[1..], EndsInSlash(SpellUnit(units[0]))))
  }

  // ---- what a glob matches --------------------------------------------------------------------------------

  ghost predicate Member(c: char, items: seq<ClassItem>) {
    exists k :: 0 <= k < |items| &&
      match items[k]
      case One(x) => c == x.c
      case Span(lo, hi) => lo.c <= c <= hi.c
  }

  ghost predicate AtomMatches(a: Atom, piece: string) {
    match a
    case Plain(c) => piece == [c]
    case Quoted(c) => piece == [c]
    case AnyOne => |piece| == 1 && piece[0] != '/'
    case Run => '/' !in piece
    case Class(mark, items) => |piece| == 1 && piece[0] != '/' && Member(piece[0], items) != mark.Some?
  }

  ghost predicate AtomsMatch(atoms: seq<Atom>, text: string) {
    if atoms == [] then text == ""
    else exists k :: 0 <= k <= |text| && AtomMatches(atoms[0], text[..k]) && AtomsMatch(atoms[1..], text[k..])
  }

  ghost predicate UnitMatches(u: Unit, piece: string) {
    match u
    case Simple(a) => AtomMatches(a, piece)
    case DeepPrefix => piece == "" || EndsInSlash(piece)
    case DeepRest => true
    case Group(alternatives) => exists k :: 0 <= k < |alternatives| && AtomsMatch(alternatives[k], piece)
  }

  /** The text falls into consecutive pieces, one for each unit. */
  ghost predicate GlobMatches(units: seq<Unit>, text: string) {
    if units == [] then text == ""
    else exists k :: 0 <= k <= |text| && UnitMatches(units[0], text[..k]) && GlobMatches(units[1..], text[k..])
  }

  /** `units` is a reading of the glob `text`. */
  predicate Reads(units: seq<Unit>, text: string) {
    WellFormed(units, true) && Spell(units) == text
  }

  function AtomWildcards(a: Atom): nat {
    if a.AnyOne? || a.Run? || a.Class? then 1 else 0
  }

  function AtomsWildcards(atoms: seq<Atom>): nat {
    if atoms == [] then 0 else AtomWildcards(atoms[0]) + AtomsWildcards(atoms[1..])
  }

  function AlternativesWildcards(alternatives: seq<seq<Atom>>): nat {
    if alternatives == [] then 0 else AtomsWildcards(alternatives[0]) + AlternativesWildcards(alternatives[1..])
  }

  function UnitWildcards(u: Unit): nat {
    match u
    case Simple(a) => AtomWildcards(a)
    case DeepPrefix => 1
    case DeepRest => 1
    case Group(alternatives) => AlternativesWildcards(alternatives)
  }

  /** How many wildcards a glob holds; a group holds those of its alternatives. */
  function Wildcards(units: seq<Unit>): nat {
    if units == [] then 0 else UnitWildcards(units[0]) + Wildcards(units[1..])
  }
}
