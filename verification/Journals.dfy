/**
  The Consumer's append-only journal. Lives come and go, a write may stop anywhere, and every life keeps an incremental
  view of the file. The view is always what a fresh reading of the whole file gives.
*/
module Journals {
  import opened Wrappers
  import opened ByteLines
  import opened Ledgers

  /** How a record is written on a line, and what a line says: `None` for anything that is not a record. */
  datatype Codec = Codec(encode: Record -> Bytes, parse: Bytes -> Option<Record>)

  /** JSON objects on one line: what was written is read back, and no proper prefix of it is a JSON text. */
  ghost predicate Lawful(c: Codec) {
    && (forall r :: OneLine(c.encode(r)) && c.encode(r) != [] && c.parse(c.encode(r)) == Some(r))
    && (forall r, n: nat {:trigger c.encode(r)[..n]} :: n < |c.encode(r)| ==> c.parse(c.encode(r)[..n]).None?)
  }

  // ---- reading --------------------------------------------------------------------------------------------

  function RecordsOn(c: Codec, lines: seq<Bytes>): seq<Record> {
    if lines == [] then []
    else
      var before, last := RecordsOn(c, lines[..|lines| - 1]), c.parse(lines[|lines| - 1]);
      if last.Some? then before + [last.value] else before
  }

  /** The records of a file: those of its complete lines. */
  function RecordsIn(c: Codec, file: Bytes): seq<Record> {
    RecordsOn(c, SplitLines(CompletePart(file)))
  }

  lemma {:induction false} RecordsOnConcat(c: Codec, a: seq<Bytes>, b: seq<Bytes>)
    ensures RecordsOn(c, a + b) == RecordsOn(c, a) + RecordsOn(c, b)
  {
    if b == [] {
      assert a + b == a;
    } else {
      assert (a + b)[..|a + b| - 1] == a + b[..|b| - 1];
      RecordsOnConcat(c, a, b[..|b| - 1]);
    }
  }

  lemma PrefixOfConcat(a: Bytes, b: Bytes, n: nat)
    requires n <= |b|
    ensures (a + b)[..|a| + n] == a + b[..n] && (a + b)[|a| + n..] == b[n..]
  {
  }

  lemma CompleteConcat(a: Bytes, b: Bytes)
    requires Closed(a)
    ensures CompleteLength(a + b) == |a| + CompleteLength(b) && CompletePart(a + b) == a + CompletePart(b)
  {
    PrefixOfConcat(a, b, CompleteLength(b));
    CompleteLengthIsUnique(a + b, |a| + CompleteLength(b));
  }

  lemma ClosedIsComplete(a: Bytes)
    requires Closed(a)
    ensures CompletePart(a) == a
  {
    assert a[..|a|] == a;
    CompleteLengthIsUnique(a, |a|);
  }

  lemma OnlyDoneIsRead(c: Codec, file: Bytes)
    ensures Closed(CompletePart(file)) && RecordsIn(c, CompletePart(file)) == RecordsIn(c, file)
  {
    ClosedIsComplete(CompletePart(file));
  }

  lemma LinesConcat(c: Codec, a: Bytes, b: Bytes)
    requires Closed(a)
    ensures RecordsOn(c, SplitLines(a + b)) == RecordsOn(c, SplitLines(a)) + RecordsOn(c, SplitLines(b))
  {
    SplitConcat(a, b);
    RecordsOnConcat(c, SplitLines(a), SplitLines(b));
  }

  /** A closed file and what follows it are read independently. */
  lemma RecordsConcat(c: Codec, a: Bytes, b: Bytes)
    requires Closed(a)
    ensures RecordsIn(c, a + b) == RecordsIn(c, a) + RecordsIn(c, b)
  {
    CompleteConcat(a, b);
    ClosedIsComplete(a);
    LinesConcat(c, a, CompletePart(b));
  }

  lemma {:induction false} ApplyConcat(ledgers: map<DeliveryId, Ledger>, a: seq<Record>, b: seq<Record>)
    ensures ApplyAll(ledgers, a + b) == ApplyAll(ApplyAll(ledgers, a), b)
  {
    if b == [] {
      assert a + b == a;
    } else {
      assert (a + b)[..|a + b| - 1] == a + b[..|b| - 1];
      ApplyConcat(ledgers, a, b[..|b| - 1]);
    }
  }

  // ---- the incremental view ---------------------------------------------------------------------------------

  /** What one life keeps of the file: how far it has read, and what it found there. */
  datatype View = View(offset: nat, count: nat, ledgers: map<DeliveryId, Ledger>)

  const NEW_VIEW := View(0, 0, map[])

  ghost predicate Agrees(c: Codec, v: View, file: Bytes) {
    && v.offset <= |file| && Closed(file[..v.offset])
    && v.count == |RecordsIn(c, file[..v.offset])|
    && v.ledgers == ApplyAll(map[], RecordsIn(c, file[..v.offset]))
  }

  /** The view of a fresh reading of the whole file. */
  ghost predicate IsCurrent(c: Codec, v: View, file: Bytes) {
    && Agrees(c, v, file)
    && v.offset == CompleteLength(file)
    && v.count == |RecordsIn(c, file)|
    && v.ledgers == ApplyAll(map[], RecordsIn(c, file))
  }

  /** Others only append to the file: what was read stays read. */
  lemma GrowthKeeps(c: Codec, v: View, file: Bytes, more: Bytes)
    requires Agrees(c, v, file)
    ensures Agrees(c, v, file + more)
  {
    assert (file + more)[..v.offset] == file[..v.offset];
  }

  /** The view after it has caught up with what was added. */
  function Refreshed(c: Codec, v: View, file: Bytes): View
    requires v.offset <= |file|
  {
    var chunk := file[v.offset..];
    var found := RecordsIn(c, chunk);
    View(v.offset + CompleteLength(chunk), v.count + |found|, ApplyAll(v.ledgers, found))
  }

  lemma CatchingUp(c: Codec, v: View, file: Bytes)
    requires Agrees(c, v, file)
    ensures IsCurrent(c, Refreshed(c, v, file), file)
  {
    var done, chunk := file[..v.offset], file[v.offset..];
    assert file == done + chunk;
    CompleteConcat(done, chunk);
    RecordsConcat(c, done, chunk);
    ApplyConcat(map[], RecordsIn(c, done), RecordsIn(c, chunk));
    OnlyDoneIsRead(c, file);
  }

  lemma NothingToRead(c: Codec, v: View)
    requires Agrees(c, v, [])
    ensures Refreshed(c, v, []) == v && IsCurrent(c, v, [])
  {
    var nothing: Bytes := [];
    CompleteLengthIsUnique(nothing, 0);
    assert nothing[..v.offset] == nothing && nothing[v.offset..] == nothing;
  }

  // ---- the journal ------------------------------------------------------------------------------------------

  /** The bytes that an append is about to write: a torn last line must not swallow the record. */
  function LineFor(c: Codec, file: Bytes, r: Record): Bytes {
    (if Closed(file) then [] else [NEWLINE]) + c.encode(r) + [NEWLINE]
  }

  class File {
    var bytes: Option<Bytes>

    constructor ()
      ensures bytes.None?
    {
      bytes := None;
    }

    function Contents(): Bytes
      reads this
    {
      if bytes.Some? then bytes.value else []
    }
  }

  class Journal {
    const file: File
    const codec: Codec
    var offset: nat
    var count: nat
    var ledgers: map<DeliveryId, Ledger>

    function Seen(): View
      reads this
    {
      View(offset, count, ledgers)
    }

    ghost predicate Valid()
      reads this, file
    {
      Agrees(codec, Seen(), file.Contents())
    }

    /** A new life has read nothing yet. */
    constructor (file: File, codec: Codec)
      ensures Valid() && this.file == file && this.codec == codec && Seen() == NEW_VIEW
    {
      this.file, this.codec, offset, count, ledgers := file, codec, 0, 0, map[];
      new;
      StartingOver(codec, file.Contents());
    }

    /** One append, of which the first `keep` bytes reach the file: all of them unless the process dies. */
    method Append(r: Record, keep: nat)
      requires Valid() && keep <= |LineFor(codec, file.Contents(), r)|
      modifies file
      ensures Valid() && Seen() == old(Seen())
      ensures file.bytes == Some(old(file.Contents()) + LineFor(codec, old(file.Contents()), r)[..keep])
    {
      var line := codec.encode(r) + [NEWLINE];
      var size := |file.Contents()|;
      if size > 0 && file.Contents()[size - 1] != NEWLINE {
        line := [NEWLINE] + line;
      }
      assert line == LineFor(codec, file.Contents(), r);
      GrowthKeeps(codec, Seen(), file.Contents(), line[..keep]);
      file.bytes := Some(file.Contents() + line[..keep]);
    }

    /** The records among the lines of a chunk; a line that the codec does not read adds none. */
    method Parse(chunk: Bytes) returns (found: seq<Record>)
      ensures found == RecordsIn(codec, chunk)
    {
      var lines := SplitLines(CompletePart(chunk));
      found := [];
      for k := 0 to |lines|
        invariant found == RecordsOn(codec, lines[..k])
      {
        assert lines[..k + 1][..k] == lines[..k];
        var record := codec.parse(lines[k]);
        if record.Some? {
          found := found + [record.value];
        }
      }
      assert lines[..|lines|] == lines;
    }

    method Apply(found: seq<Record>)
      modifies this`count, this`ledgers
      ensures count == old(count) + |found| && ledgers == ApplyAll(old(ledgers), found)
    {
      for k := 0 to |found|
        invariant count == old(count) + k && ledgers == ApplyAll(old(ledgers), found[..k])
      {
        assert found[..k + 1][..k] == found[..k];
        count := count + 1;
        ledgers := ApplyRecord(ledgers, found[k]);
      }
      assert found[..|found|] == found;
    }

    /** Catch up with the file: what was added since goes through the fold, and the view is that of all lines. */
    method Refresh()
      requires Valid()
      modifies this
      ensures Valid() && Seen() == Refreshed(codec, old(Seen()), file.Contents())
      ensures IsCurrent(codec, Seen(), file.Contents())
    {
      if file.bytes.None? {
        NothingToRead(codec, Seen());
        return;
      }
      CatchingUp(codec, Seen(), file.Contents());
      var chunk := file.Contents()[offset..];
      var found := Parse(chunk);
      Apply(found);
      offset := offset + CompleteLength(chunk);
    }

    method Count() returns (n: nat)
      requires Valid()
      modifies this
      ensures Valid() && n == |RecordsIn(codec, file.Contents())|
    {
      Refresh();
      n := count;
    }

    /** What the whole journal says about one delivery. */
    method LedgerFor(d: DeliveryId) returns (l: Ledger)
      requires Valid()
      modifies this
      ensures Valid() && l == LedgerOf(EntriesOf(RecordsIn(codec, file.Contents()), d))
    {
      Refresh();
      LedgersAreIndependent(RecordsIn(codec, file.Contents()), d);
      l := LedgerIn(ledgers, d);
    }
  }

  // ---- torn writes --------------------------------------------------------------------------------------------

  /** An append of which `keep` bytes reached the file. */
  datatype Write = Write(r: Record, keep: nat)

  predicate Possible(c: Codec, file: Bytes, w: Write) {
    w.keep <= |LineFor(c, file, w.r)|
  }

  /** The file after a history of appends, each complete or cut short by a death. */
  function FileAfter(c: Codec, writes: seq<Write>): Option<Bytes> {
    if writes == [] then Some([])
    else
      var file, last := FileAfter(c, writes[..|writes| - 1]), writes[|writes| - 1];
      if file.None? || !Possible(c, file.value, last) then None
      else Some(file.value + LineFor(c, file.value, last.r)[..last.keep])
  }

  /** The append was complete, or lost only the newline at its end. */
  predicate Survives(c: Codec, file: Bytes, w: Write) {
    w.keep + 1 >= |LineFor(c, file, w.r)|
  }

  /** The records of the appends that survive, each once, in the order of the appends. */
  function Survivors(c: Codec, writes: seq<Write>): seq<Record>
    requires FileAfter(c, writes).Some?
  {
    if writes == [] then []
    else
      var init, last := writes[..|writes| - 1], writes[|writes| - 1];
      if Survives(c, FileAfter(c, init).value, last) then Survivors(c, init) + [last.r] else Survivors(c, init)
  }

  /** The file with its last line ended, as the next append would leave it. */
  function Ended(file: Bytes): Bytes {
    if Closed(file) then file else file + [NEWLINE]
  }

  lemma EndedConcat(a: Bytes, b: Bytes)
    requires Closed(a)
    ensures Ended(a + b) == a + Ended(b)
  {
    assert b == [] ==> a + b == a;
  }

  /** What a line says, if anything. */
  function Said(c: Codec, line: Bytes): seq<Record> {
    match c.parse(line)
    case Some(r) => [r]
    case None => []
  }

  lemma OneLineIsRead(c: Codec, line: Bytes)
    requires OneLine(line)
    ensures RecordsIn(c, line + [NEWLINE]) == Said(c, line)
  {
    ClosedIsComplete(line + [NEWLINE]);
    SplitOneLine(line);
    var lines := [line];
    assert lines[..0] == [] && RecordsOn(c, lines[..0]) == [];
    assert RecordsOn(c, lines) == RecordsOn(c, lines[..0]) + Said(c, line);
  }

  /** What is left of one record: the record if all of it is there, with or without its newline, and else nothing. */
  lemma Remnant(c: Codec, r: Record, n: nat)
    requires Lawful(c) && n <= |c.encode(r)| + 1
    ensures RecordsIn(c, Ended((c.encode(r) + [NEWLINE])[..n])) == if n >= |c.encode(r)| then [r] else []
  {
    var text := c.encode(r);
    var part := (text + [NEWLINE])[..n];
    if n == 0 {
      CompleteLengthIsUnique([], 0);
    } else {
      var line := text[..if n < |text| then n else |text|];
      assert Ended(part) == line + [NEWLINE];
      OneLineIsRead(c, line);
      if n >= |text| {
        assert line == text;
      } else {
        assert c.parse(text[..n]).None?;
      }
    }
  }

  /** What a write that is not empty leaves: the file with its last line ended, and a part of the record's line. */
  lemma WrittenAs(c: Codec, file: Bytes, w: Write)
    requires Possible(c, file, w) && w.keep > 0
    ensures var gap := if Closed(file) then 0 else 1;
            gap <= w.keep <= |c.encode(w.r)| + 1 + gap &&
            file + LineFor(c, file, w.r)[..w.keep] == Ended(file) + (c.encode(w.r) + [NEWLINE])[..w.keep - gap]
  {
    var text := c.encode(w.r) + [NEWLINE];
    if Closed(file) {
      assert LineFor(c, file, w.r) == text;
    } else {
      assert LineFor(c, file, w.r) == [NEWLINE] + text;
      assert ([NEWLINE] + text)[..w.keep] == [NEWLINE] + text[..w.keep - 1];
    }
  }

  lemma OneMoreWrite(c: Codec, file: Bytes, w: Write)
    requires Lawful(c) && Possible(c, file, w)
    ensures RecordsIn(c, Ended(file + LineFor(c, file, w.r)[..w.keep]))
         == RecordsIn(c, Ended(file)) + if Survives(c, file, w) then [w.r] else []
  {
    var text, after := c.encode(w.r), file + LineFor(c, file, w.r)[..w.keep];
    if w.keep == 0 {
      assert after == file;
    } else {
      WrittenAs(c, file, w);
      var gap := if Closed(file) then 0 else 1;
      var rest := (text + [NEWLINE])[..w.keep - gap];
      EndedConcat(Ended(file), rest);
      RecordsConcat(c, Ended(file), Ended(rest));
      Remnant(c, w.r, w.keep - gap);
    }
  }

  /**
    After any history of complete and torn appends the journal holds exactly the surviving records, each once and in
    order: all complete ones, and of the torn ones those that lost nothing but their newline.
  */
  lemma {:induction false} TornWritesAreContained(c: Codec, writes: seq<Write>)
    requires Lawful(c) && FileAfter(c, writes).Some?
    ensures RecordsIn(c, Ended(FileAfter(c, writes).value)) == Survivors(c, writes)
  {
    if writes == [] {
      CompleteLengthIsUnique([], 0);
    } else {
      var init, last := writes[..|writes| - 1], writes[|writes| - 1];
      TornWritesAreContained(c, init);
      OneMoreWrite(c, FileAfter(c, init).value, last);
    }
  }

  lemma TailOfLine(text: Bytes, n: nat)
    requires OneLine(text) && n <= |text| + 1
    ensures var rest := (text + [NEWLINE])[..n]; OneLine(rest[CompleteLength(rest)..])
  {
    var rest := (text + [NEWLINE])[..n];
    if n == |text| + 1 {
      assert rest[|rest|..] == [];
      CompleteLengthIsUnique(rest, |rest|);
    } else {
      assert rest == text[..n] && rest[0..] == rest;
      CompleteLengthIsUnique(rest, 0);
    }
  }

  lemma TailOfConcat(a: Bytes, b: Bytes)
    requires Closed(a)
    ensures (a + b)[CompleteLength(a + b)..] == b[CompleteLength(b)..]
  {
    CompleteConcat(a, b);
    PrefixOfConcat(a, b, CompleteLength(b));
  }

  lemma TailOfWrite(c: Codec, file: Bytes, w: Write)
    requires Lawful(c) && Possible(c, file, w) && w.keep > 0
    ensures var after := file + LineFor(c, file, w.r)[..w.keep]; OneLine(after[CompleteLength(after)..])
  {
    WrittenAs(c, file, w);
    var text, n := c.encode(w.r), w.keep - if Closed(file) then 0 else 1;
    var rest := (text + [NEWLINE])[..n];
    TailOfLine(text, n);
    TailOfConcat(Ended(file), rest);
  }

  /** Behind the last newline there is at most one line. */
  lemma {:induction false} TailIsOneLine(c: Codec, writes: seq<Write>)
    requires Lawful(c) && FileAfter(c, writes).Some?
    ensures var file := FileAfter(c, writes).value; OneLine(file[CompleteLength(file)..])
  {
    if writes != [] {
      var init, w := writes[..|writes| - 1], writes[|writes| - 1];
      var file := FileAfter(c, init).value;
      TailIsOneLine(c, init);
      if w.keep == 0 {
        assert FileAfter(c, writes).value == file;
      } else {
        TailOfWrite(c, file, w);
      }
    }
  }

  lemma EndingReads(c: Codec, done: Bytes, tail: Bytes)
    requires Closed(done) && OneLine(tail) && tail != []
    ensures RecordsIn(c, Ended(done + tail)) == RecordsIn(c, done) + Said(c, tail)
  {
    assert Ended(tail) == tail + [NEWLINE];
    EndedConcat(done, tail);
    RecordsConcat(c, done, Ended(tail));
    OneLineIsRead(c, tail);
  }

  /** Ending a last line adds what it says to the records, and nothing else. */
  lemma EndingReadsTail(c: Codec, file: Bytes)
    requires !Closed(file) && OneLine(file[CompleteLength(file)..])
    ensures RecordsIn(c, Ended(file)) == RecordsIn(c, file) + Said(c, file[CompleteLength(file)..])
  {
    var done, tail := CompletePart(file), file[CompleteLength(file)..];
    OnlyDoneIsRead(c, file);
    assert file == done + tail;
    EndingReads(c, done, tail);
  }

  /** A record that lost its newline is read once the next append has supplied it; nothing else waits. */
  lemma UnendedLineWaits(c: Codec, writes: seq<Write>)
    requires Lawful(c) && FileAfter(c, writes).Some?
    ensures var file, all := FileAfter(c, writes).value, Survivors(c, writes);
            && RecordsIn(c, file) <= all && |all| <= |RecordsIn(c, file)| + 1
            && (Closed(file) ==> RecordsIn(c, file) == all)
  {
    TornWritesAreContained(c, writes);
    if !Closed(FileAfter(c, writes).value) {
      TailIsOneLine(c, writes);
      EndingReadsTail(c, FileAfter(c, writes).value);
    }
  }

  // ---- any history of writes, queries and lives -----------------------------------------------------------------

  datatype Event = Written(w: Write) | Queried | Reborn

  datatype History = History(writes: seq<Write>, view: View)

  function HistoryOf(c: Codec, events: seq<Event>): Option<History> {
    if events == [] then Some(History([], NEW_VIEW))
    else
      var h, last := HistoryOf(c, events[..|events| - 1]), events[|events| - 1];
      if h.None? then None
      else
        var file := FileAfter(c, h.value.writes);
        match last
        case Written(w) => if file.Some? && Possible(c, file.value, w) then Some(h.value.(writes := h.value.writes + [w])) else None
        case Queried =>
          if file.Some? && h.value.view.offset <= |file.value| then
            Some(h.value.(view := Refreshed(c, h.value.view, file.value)))
          else None
        case Reborn => Some(h.value.(view := NEW_VIEW))
  }

  /** Whatever came before, a query answers what a fold over the whole file answers, for every delivery. */
  lemma {:induction false} ViewsAgree(c: Codec, events: seq<Event>)
    requires HistoryOf(c, events).Some?
    ensures var h := HistoryOf(c, events).value;
            var file := FileAfter(c, h.writes);
            && file.Some? && Agrees(c, h.view, file.value)
            && (events != [] && events[|events| - 1] == Queried ==>
                  && IsCurrent(c, h.view, file.value)
                  && forall d :: LedgerIn(h.view.ledgers, d) == LedgerOf(EntriesOf(RecordsIn(c, file.value), d)))
  {
    if events == [] {
      NothingToRead(c, NEW_VIEW);
    } else {
      var init, last := events[..|events| - 1], events[|events| - 1];
      ViewsAgree(c, init);
      var h := HistoryOf(c, init).value;
      var file := FileAfter(c, h.writes).value;
      match last
      case Written(w) =>
        assert (h.writes + [w])[..|h.writes|] == h.writes;
        GrowthKeeps(c, h.view, file, LineFor(c, file, w.r)[..w.keep]);
      case Queried =>
        CatchingUp(c, h.view, file);
        forall d
          ensures LedgerIn(Refreshed(c, h.view, file).ledgers, d) == LedgerOf(EntriesOf(RecordsIn(c, file), d))
        {
          LedgersAreIndependent(RecordsIn(c, file), d);
        }
      case Reborn =>
        StartingOver(c, file);
    }
  }

  // ---- what a life reads -----------------------------------------------------------------------------------------

  /** Of one life: nothing appended yet, its start recorded, or cut off in the middle of an append. */
  datatype Life = Beginning | Running | CutOff

  /** A life records its start before it asks anything, and one that is cut off in an append does nothing more. */
  function LifeAfter(c: Codec, events: seq<Event>): Option<Life>
    requires HistoryOf(c, events).Some?
  {
    if events == [] then Some(Beginning)
    else
      var init, last := events[..|events| - 1], events[|events| - 1];
      var life := LifeAfter(c, init);
      match last
      case Written(w) =>
        if life.None? || life.value.CutOff? then None
        else if w.keep == |LineFor(c, FileAfter(c, HistoryOf(c, init).value.writes).value, w.r)| then Some(Running)
        else Some(CutOff)
      case Queried => if life == Some(Running) then life else None
      case Reborn => if life.None? then None else Some(Beginning)
  }

  /** The start that a life records ends the line on which the life before it was cut off. */
  lemma {:induction false} RunningIsClosed(c: Codec, events: seq<Event>)
    requires HistoryOf(c, events).Some? && LifeAfter(c, events) == Some(Running)
    ensures var file := FileAfter(c, HistoryOf(c, events).value.writes); file.Some? && Closed(file.value)
  {
    var init, last := events[..|events| - 1], events[|events| - 1];
    var h := HistoryOf(c, init).value;
    match last
    case Written(w) =>
      assert (h.writes + [w])[..|h.writes|] == h.writes;
      var file := FileAfter(c, h.writes).value;
      assert file + LineFor(c, file, w.r)[..w.keep] == file + LineFor(c, file, w.r);
    case Queried => RunningIsClosed(c, init);
  }

  /**
    However many lives were cut off and wherever, every query of a later life answers for the surviving records: what
    was written whole or lost only its newline counts as appended, and the rest as never begun.
  */
  lemma QueriesReadTheSurvivors(c: Codec, events: seq<Event>)
    requires Lawful(c) && events != [] && events[|events| - 1] == Queried
    requires HistoryOf(c, events).Some? && LifeAfter(c, events).Some?
    ensures var h := HistoryOf(c, events).value;
            && FileAfter(c, h.writes).Some? && h.view.count == |Survivors(c, h.writes)|
            && forall d :: LedgerIn(h.view.ledgers, d) == LedgerOf(EntriesOf(Survivors(c, h.writes), d))
  {
    ViewsAgree(c, events);
    RunningIsClosed(c, events);
    UnendedLineWaits(c, HistoryOf(c, events).value.writes);
  }

  lemma StartingOver(c: Codec, file: Bytes)
    ensures Agrees(c, NEW_VIEW, file)
  {
    var nothing: Bytes := [];
    CompleteLengthIsUnique(nothing, 0);
    assert file[..0] == nothing && nothing[..0] == nothing;
  }
}
