/**
  The appender of the hash-chained audit file. It verifies the history once and then reads only the last line; in any
  order of writers the file stays one chain, and damage stops them all.
*/
module AuditLogs {
  import opened Wrappers
  import opened ByteLines
  import opened AuditChains

  // ---- the last line ------------------------------------------------------------------------------------------

  const CHUNK := 8192

  datatype AuditError =
    | Frozen | ReplacedOrTruncated | Invalid(failure: Failure, line: nat) | MigrationRequired
    | TruncatedTail | InvalidTail | UnusableTail | NotEncodable | ShortWrite

  /** The last line of a file that ends with a newline, without that newline. */
  function LastLine(file: Bytes): Bytes
    requires file != []
  {
    var init := file[..|file| - 1];
    init[CompleteLength(init)..]
  }

  /** What the last line must be for an append to continue it. */
  function TailRecord(c: Codec, text: Bytes): Result<Fields, AuditError> {
    var m := FieldsOn(c, text);
    if c.parse(text).None? || !c.parse(text).value.Obj? || "record_hash" !in m || c.canonical(BodyOf(m)).None? then
      Failure(InvalidTail)
    else if Str(c.sha(c.canonical(BodyOf(m)).value)) != m["record_hash"] then Failure(InvalidTail)
    else if "schema_version" !in m || !IsVersion(m["schema_version"], 2) then Failure(MigrationRequired)
    else Success(m)
  }

  function TailOf(c: Codec, file: Bytes): Result<Option<Fields>, AuditError> {
    if file == [] then Success(None)
    else if file[|file| - 1] != NEWLINE then Failure(TruncatedTail)
    else
      var m := TailRecord(c, LastLine(file));
      if m.Success? then Success(Some(m.value)) else Failure(m.error)
  }

  lemma Reassociated(before: Bytes, chunk: Bytes, k: nat, after: Bytes)
    requires k <= |chunk|
    ensures before + chunk + after == (before + chunk[..k]) + (chunk[k..] + after)
  {
    assert chunk == chunk[..k] + chunk[k..];
  }

  /** A chunk that holds a newline ends the search: the last line is what follows it, here and in the chunks read before. */
  lemma ChunkEnds(before: Bytes, chunk: Bytes, after: Bytes)
    requires NEWLINE !in after && CompleteLength(chunk) > 0
    ensures var all := before + chunk + after; all[CompleteLength(all)..] == chunk[CompleteLength(chunk)..] + after
  {
    var k := CompleteLength(chunk);
    Reassociated(before, chunk, k, after);
    CompleteLengthOf(before + chunk[..k], chunk[k..] + after);
  }

  lemma InPieces(init: Bytes, start: nat, end: nat)
    requires start <= end <= |init|
    ensures init == init[..start] + init[start..end] + init[end..]
    ensures init[start..] == init[start..end] + init[end..]
  {
  }

  lemma NoNewlineIn(chunk: Bytes, after: Bytes)
    requires CompleteLength(chunk) == 0 && NEWLINE !in after
    ensures NEWLINE !in chunk + after
  {
    assert chunk[0..] == chunk;
  }

  /** What one chunk adds to the search for the last newline. */
  lemma OneChunk(init: Bytes, start: nat, end: nat)
    requires start < end <= |init| && NEWLINE !in init[end..]
    ensures var chunk := init[start..end];
            && (CompleteLength(chunk) > 0 ==> init[CompleteLength(init)..] == chunk[CompleteLength(chunk)..] + init[end..])
            && (CompleteLength(chunk) == 0 ==> init[start..] == chunk + init[end..] && NEWLINE !in init[start..])
  {
    InPieces(init, start, end);
    if CompleteLength(init[start..end]) > 0 {
      ChunkEnds(init[..start], init[start..end], init[end..]);
    } else {
      NoNewlineIn(init[start..end], init[end..]);
    }
  }

  /** What follows the last newline, read backwards in chunks until a newline is found. */
  method ReadLastLine(init: Bytes) returns (text: Bytes)
    ensures text == init[CompleteLength(init)..]
  {
    var end := |init|;
    text := [];
    assert init[|init|..] == [];
    while end > 0
      invariant 0 <= end <= |init|
      invariant text == init[end..] && NEWLINE !in init[end..]
    {
      var start := if end < CHUNK then 0 else end - CHUNK;
      var chunk := init[start..end];
      OneChunk(init, start, end);
      var index := CompleteLength(chunk);
      if index > 0 {
        return chunk[index..] + text;
      }
      text := chunk + text;
      end := start;
    }
    assert init == init[0..];
    CompleteLengthIsUnique(init, 0);
  }

  /** The last record of the file, if an append may continue it. */
  method Tail(c: Codec, file: Bytes) returns (r: Result<Option<Fields>, AuditError>)
    ensures r == TailOf(c, file)
  {
    var size := |file|;
    if size == 0 {
      return Success(None);
    }
    if file[size - 1] != NEWLINE {
      return Failure(TruncatedTail);
    }
    var text := ReadLastLine(file[..size - 1]);
    var m := TailRecord(c, text);
    r := if m.Success? then Success(Some(m.value)) else Failure(m.error);
  }

  // ---- one append ---------------------------------------------------------------------------------------------

  /** What a caller records, with the process facts that are stamped on it. */
  datatype Event = Event(
    timestamp: string, writerPid: int, writerInstance: string, sessionId: string, requestId: string, release: string,
    action: string, workspaceId: Option<string>, outcome: string, details: Fields)

  function OrNull(s: Option<string>): Value {
    if s.Some? then Str(s.value) else Null
  }

  function RecordOf(e: Event, chain: Value, sequence: Value, previous: Value): Fields {
    map[
      "schema_version" := Int(2), "chain_id" := chain, "sequence" := sequence, "timestamp" := Str(e.timestamp),
      "writer_pid" := Int(e.writerPid), "writer_instance_id" := Str(e.writerInstance), "session_id" := Str(e.sessionId),
      "request_id" := Str(e.requestId), "runtime_release" := Str(e.release), "action" := Str(e.action),
      "workspace_id" := OrNull(e.workspaceId), "outcome" := Str(e.outcome), "details" := Obj(e.details),
      "previous_hash" := previous]
  }

  function PlusOne(v: Value): Option<Value> {
    match v
    case Bool(b) => Some(Int(if b then 2 else 1))
    case Int(n) => Some(Int(n + 1))
    case Float(r) => Some(Float(r + 1.0))
    case _ => None
  }

  /** The record that continues a tail; `newChain` is the chain id of a file that is empty. */
  function NextRecord(e: Event, tail: Option<Fields>, newChain: string): Result<Fields, AuditError> {
    if tail.None? then Success(RecordOf(e, Str(newChain), Int(1), Str(GENESIS)))
    else
      var m := tail.value;
      if "chain_id" !in m || "sequence" !in m || "record_hash" !in m || PlusOne(m["sequence"]).None? then Failure(UnusableTail)
      else Success(RecordOf(e, m["chain_id"], PlusOne(m["sequence"]).value, m["record_hash"]))
  }

  function SealedRecord(c: Codec, record: Fields): Fields
    requires c.canonical(record).Some?
  {
    record["record_hash" := Str(c.sha(c.canonical(record).value))]
  }

  /** What a writer knows: the file it last wrote and its size then. */
  datatype Known = Known(identity: nat, size: nat)

  /** What the path opens. */
  datatype FileState = FileState(identity: nat, bytes: Bytes)

  function HistoryFault(c: Codec, known: Option<Known>, f: FileState): Option<AuditError> {
    if known.Some? then
      if f.identity != known.value.identity || |f.bytes| < known.value.size then Some(ReplacedOrTruncated) else None
    else
      var r := Verified(c, f.bytes);
      if !r.Valid() then Some(Invalid(r.failure.value, r.progress.count + 1))
      else if r.progress.count > 0 && r.progress.version.Some? && !IsVersion(r.progress.version.value, 2) then
        Some(MigrationRequired)
      else None
  }

  /** The record and the line that an append is about to write, or why it writes nothing. */
  function Prepared(c: Codec, known: Option<Known>, f: FileState, e: Event, frozen: bool, newChain: string)
    : Result<(Fields, Bytes), AuditError>
  {
    if frozen then Failure(Frozen)
    else if HistoryFault(c, known, f).Some? then Failure(HistoryFault(c, known, f).value)
    else
      var tail := TailOf(c, f.bytes);
      if tail.Failure? then Failure(tail.error)
      else
        var record := NextRecord(e, tail.value, newChain);
        if record.Failure? then Failure(record.error)
        else if c.canonical(record.value).None? then Failure(NotEncodable)
        else
          var stored := SealedRecord(c, record.value);
          if c.canonical(stored).None? then Failure(NotEncodable)
          else Success((stored, c.canonical(stored).value + [NEWLINE]))
  }

  /** A write of which the system takes at most `room` bytes. */
  function Taken(data: Bytes, room: nat): Bytes {
    if room < |data| then data[..room] else data
  }

  /** The file, what the writer knows and what it returns after one append. A short write stays as it is. */
  function Appended(c: Codec, known: Option<Known>, f: FileState, e: Event, frozen: bool, newChain: string, room: nat)
    : (FileState, Option<Known>, Result<Fields, AuditError>)
  {
    var prepared := Prepared(c, known, f, e, frozen, newChain);
    if prepared.Failure? then (f, known, Failure(prepared.error))
    else
      var g := f.(bytes := f.bytes + Taken(prepared.value.1, room));
      if room < |prepared.value.1| then (g, known, Failure(ShortWrite))
      else (g, Some(Known(g.identity, |g.bytes|)), Success(prepared.value.0))
  }

  class AuditFile {
    var state: FileState

    constructor (identity: nat, bytes: Bytes)
      ensures state == FileState(identity, bytes)
    {
      state := FileState(identity, bytes);
    }
  }

  class AuditLog {
    const codec: Codec
    const file: AuditFile
    var known: Option<Known>

    constructor (codec: Codec, file: AuditFile)
      ensures this.codec == codec && this.file == file && known.None?
    {
      this.codec, this.file, known := codec, file, None;
    }

    /** The append under the lock. A short write is left as it is: never retried, truncated or repaired. */
    method Append(e: Event, frozen: bool, newChain: string, room: nat) returns (r: Result<Fields, AuditError>)
      modifies this, file
      ensures (file.state, known, r) == Appended(codec, old(known), old(file.state), e, frozen, newChain, room)
    {
      if frozen {
        return Failure(Frozen);
      }
      var f := file.state;
      if known.Some? {
        if f.identity != known.value.identity || |f.bytes| < known.value.size {
          return Failure(ReplacedOrTruncated);
        }
      } else {
        var report := VerifyStream(codec, f.bytes);
        if report.failure.Some? {
          return Failure(Invalid(report.failure.value, report.progress.count + 1));
        }
        if report.progress.count > 0 && report.progress.version.Some? && !IsVersion(report.progress.version.value, 2) {
          return Failure(MigrationRequired);
        }
      }
      var tail := Tail(codec, f.bytes);
      if tail.Failure? {
        return Failure(tail.error);
      }
      var record := NextRecord(e, tail.value, newChain);
      if record.Failure? {
        return Failure(record.error);
      }
      if codec.canonical(record.value).None? {
        return Failure(NotEncodable);
      }
      var stored := SealedRecord(codec, record.value);
      if codec.canonical(stored).None? {
        return Failure(NotEncodable);
      }
      var data := codec.canonical(stored).value + [NEWLINE];
      file.state := f.(bytes := f.bytes + Taken(data, room));
      if room < |data| {
        return Failure(ShortWrite);
      }
      known := Some(Known(f.identity, |file.state.bytes|));
      r := Success(stored);
    }

    method Verify() returns (r: Report)
      ensures r == Verified(codec, file.state.bytes)
    {
      r := VerifyStream(codec, file.state.bytes);
    }
  }

  // ---- what is asked of JSON and SHA-256 ------------------------------------------------------------------------

  /** A written object is one line and is read back; its hash can be added to it; a hash has 64 digits. */
  ghost predicate Lawful(c: Codec) {
    && (forall m :: c.canonical(m).Some? ==>
          && NEWLINE !in c.canonical(m).value
          && c.parse(c.canonical(m).value) == Some(Obj(m))
          && c.parse(c.canonical(m).value + [NEWLINE]) == Some(Obj(m)))
    && (forall b :: |c.sha(b)| == HASH_LENGTH)
    && (forall m, b :: c.canonical(m).Some? ==> c.canonical(m["record_hash" := Str(c.sha(b))]).Some?)
  }

  // ---- a sound file -----------------------------------------------------------------------------------------------

  /** Empty, or a chain of version 2 whose last line reads the same without its newline. */
  ghost predicate SoundFile(c: Codec, file: Bytes) {
    && Closed(file) && IsChain(c, FileLines(file))
    && (file != [] ==>
          && FileLines(file) != []
          && IsVersion(VersionOf(LastFields(c, file)), 2)
          && c.parse(LastLine(file)) == c.parse(LastLine(file) + [NEWLINE])
          && FileLines(file)[|FileLines(file)| - 1] == LastLine(file) + [NEWLINE])
  }

  function LastFields(c: Codec, file: Bytes): Fields
    requires file != []
  {
    FieldsOn(c, LastLine(file) + [NEWLINE])
  }

  lemma LinesOfTwoParts(done: Bytes, text: Bytes)
    requires Closed(done) && NEWLINE !in text
    ensures FileLines(done + (text + [NEWLINE])) == FileLines(done) + [text + [NEWLINE]]
  {
    FileLinesConcat(done, text + [NEWLINE]);
    assert (text + [NEWLINE])[..|text|] == text;
    OneFileLine(text + [NEWLINE]);
  }

  lemma SplitAtLastLine(file: Bytes)
    requires file != [] && Closed(file)
    ensures var n := CompleteLength(file[..|file| - 1]);
            Closed(file[..n]) && NEWLINE !in LastLine(file) && file == file[..n] + (LastLine(file) + [NEWLINE])
  {
    var init := file[..|file| - 1];
    var n := CompleteLength(init);
    assert init[..n] == file[..n] && init == init[..n] + init[n..] && file == init + [NEWLINE];
  }

  /** The last line of a closed file is the last of its lines. */
  lemma LastOfLines(file: Bytes)
    requires file != [] && Closed(file)
    ensures FileLines(file) != [] && FileLines(file)[|FileLines(file)| - 1] == LastLine(file) + [NEWLINE]
  {
    SplitAtLastLine(file);
    LinesOfTwoParts(file[..CompleteLength(file[..|file| - 1])], LastLine(file));
  }

  /** A file that verifies, of version 2, with a last line that reads the same without its newline, is sound. */
  lemma ValidFileIsSound(c: Codec, file: Bytes)
    requires Verified(c, file).Valid()
    requires file != [] ==>
               && IsVersion(VersionOf(LastFields(c, file)), 2)
               && c.parse(LastLine(file)) == c.parse(LastLine(file) + [NEWLINE])
    ensures SoundFile(c, file)
  {
    LongestValidPrefix(c, file);
    if !Closed(file) {
      OpenIsNoChain(c, file);
    }
    if file != [] {
      LastOfLines(file);
    }
  }

  /** What follows the last newline would be a line of its own, and no line of a chain is cut short. */
  lemma OpenIsNoChain(c: Codec, file: Bytes)
    requires !Closed(file)
    ensures !IsChain(c, FileLines(file))
  {
    var n := CompleteLength(file);
    var lines, rest := FileLines(file), file[n..];
    assert file == file[..n] + rest;
    FileLinesConcat(file[..n], rest);
    OneFileLine(rest);
    assert !Linked(c, lines, |lines| - 1);
  }

  lemma SoundTail(c: Codec, file: Bytes)
    requires SoundFile(c, file) && file != []
    ensures TailOf(c, file) == Success(Some(LastFields(c, file)))
  {
    var lines := FileLines(file);
    assert Linked(c, lines, |lines| - 1);
  }

  lemma SoundHistory(c: Codec, file: Bytes)
    requires SoundFile(c, file)
    ensures var r := Verified(c, file);
            && r.Valid() && r.progress.count == |FileLines(file)|
            && (r.progress.count > 0 ==> r.progress.version.Some? && IsVersion(r.progress.version.value, 2))
  {
    var lines := FileLines(file);
    LongestValidPrefix(c, file);
    assert lines[0..] == lines;
    ScanFrom(c, lines, 0);
  }

  // ---- one append to a sound file -----------------------------------------------------------------------------------

  lemma RecordFacts(c: Codec, e: Event, chain: Value, sequence: Value, previous: Value)
    ensures var record := RecordOf(e, chain, sequence, previous);
            && "record_hash" !in record
            && "schema_version" in record && record["schema_version"] == Int(2)
            && "chain_id" in record && record["chain_id"] == chain
            && "sequence" in record && record["sequence"] == sequence
            && "previous_hash" in record && record["previous_hash"] == previous
            && (c.canonical(record).Some? ==> BodyOf(SealedRecord(c, record)) == record)
  {
  }

  /** The line of a record that names the head of the chain before it links to that chain. */
  lemma NextLineLinks(c: Codec, lines: seq<Bytes>, e: Event, chain: string, record: Fields)
    requires Lawful(c) && chain != ""
    requires record == RecordOf(e, Str(chain), Int(|lines| + 1), Str(HeadBefore(c, lines, |lines|)))
    requires c.canonical(record).Some? && c.canonical(SealedRecord(c, record)).Some?
    requires lines != [] ==>
               var m := FieldsOn(c, lines[|lines| - 1]); IsVersion(VersionOf(m), 2) && TextAt(m, "chain_id") == chain
    ensures var data := c.canonical(SealedRecord(c, record)).value + [NEWLINE];
            FieldsOn(c, data) == SealedRecord(c, record) && Linked(c, lines + [data], |lines|)
  {
    var stored := SealedRecord(c, record);
    var data := c.canonical(stored).value + [NEWLINE];
    var all := lines + [data];
    RecordFacts(c, e, Str(chain), Int(|lines| + 1), Str(HeadBefore(c, lines, |lines|)));
    assert FieldsOn(c, data) == stored && all[|lines|] == data;
    assert Sealed(c, data);
    assert lines != [] ==> all[|lines| - 1] == lines[|lines| - 1];
    assert HeadBefore(c, all, |lines|) == HeadBefore(c, lines, |lines|);
    assert VersionOf(stored) == Int(2);
  }

  lemma ChainGrows(c: Codec, lines: seq<Bytes>, line: Bytes)
    requires IsChain(c, lines) && Linked(c, lines + [line], |lines|)
    ensures IsChain(c, lines + [line])
  {
    var all := lines + [line];
    assert all[..|lines|] == lines;
    forall k | 0 <= k < |all|
      ensures Linked(c, all, k)
    {
      if k < |lines| {
        LinkedInPrefix(c, all, |lines|, k);
      }
    }
  }

  lemma SoundFileGrows(c: Codec, file: Bytes, text: Bytes)
    requires SoundFile(c, file) && NEWLINE !in text
    requires Linked(c, FileLines(file) + [text + [NEWLINE]], |FileLines(file)|)
    requires c.parse(text) == c.parse(text + [NEWLINE]) && IsVersion(VersionOf(FieldsOn(c, text + [NEWLINE])), 2)
    ensures SoundFile(c, file + (text + [NEWLINE]))
    ensures FileLines(file + (text + [NEWLINE])) == FileLines(file) + [text + [NEWLINE]]
  {
    var all := file + (text + [NEWLINE]);
    LinesOfTwoParts(file, text);
    ChainGrows(c, FileLines(file), text + [NEWLINE]);
    LastOfLines(all);
    assert (LastLine(all) + [NEWLINE])[..|LastLine(all)|] == LastLine(all);
    assert (text + [NEWLINE])[..|text|] == text;
  }

  /** What a writer of this file knows about it. */
  predicate Fitting(known: Option<Known>, f: FileState) {
    known.Some? ==> known.value.identity == f.identity && known.value.size <= |f.bytes|
  }

  /** The chain id that an append continues, or begins. */
  function ChainFor(c: Codec, file: Bytes, newChain: string): string {
    if file == [] then newChain else TextAt(LastFields(c, file), "chain_id")
  }

  function RecordFor(c: Codec, file: Bytes, e: Event, newChain: string): Fields {
    RecordOf(e, Str(ChainFor(c, file, newChain)), Int(|FileLines(file)| + 1),
             Str(HeadBefore(c, FileLines(file), |FileLines(file)|)))
  }

  /** The tail alone gives the number and the head of the whole chain. */
  lemma NextOfSound(c: Codec, file: Bytes, e: Event, newChain: string)
    requires SoundFile(c, file) && newChain != ""
    ensures TailOf(c, file).Success?
    ensures NextRecord(e, TailOf(c, file).value, newChain) == Success(RecordFor(c, file, e, newChain))
    ensures ChainFor(c, file, newChain) != ""
  {
    var lines := FileLines(file);
    if file != [] {
      SoundTail(c, file);
      assert Linked(c, lines, |lines| - 1);
    }
  }

  lemma PreparedOnSound(c: Codec, known: Option<Known>, f: FileState, e: Event, frozen: bool, newChain: string)
    requires Lawful(c) && SoundFile(c, f.bytes) && Fitting(known, f) && newChain != ""
    ensures var record := RecordFor(c, f.bytes, e, newChain);
            Prepared(c, known, f, e, frozen, newChain) ==
              if frozen then Failure(Frozen)
              else if c.canonical(record).None? then Failure(NotEncodable)
              else Success((SealedRecord(c, record), LineOf(c, record)))
  {
    SoundHistory(c, f.bytes);
    NextOfSound(c, f.bytes, e, newChain);
  }

  /** The line of a record with its hash. */
  function LineOf(c: Codec, record: Fields): Bytes
    requires c.canonical(record).Some?
  {
    var text := c.canonical(SealedRecord(c, record));
    if text.Some? then text.value + [NEWLINE] else []
  }

  /** The next record of a sound file makes it the same chain with one more line. */
  lemma NextRecordExtends(c: Codec, file: Bytes, e: Event, newChain: string)
    requires Lawful(c) && SoundFile(c, file) && newChain != "" && c.canonical(RecordFor(c, file, e, newChain)).Some?
    ensures var record := RecordFor(c, file, e, newChain);
            var line := LineOf(c, record);
            && line != [] && line[|line| - 1] == NEWLINE && NEWLINE !in line[..|line| - 1]
            && FieldsOn(c, line) == SealedRecord(c, record)
            && SoundFile(c, file + line) && FileLines(file + line) == FileLines(file) + [line]
  {
    var record := RecordFor(c, file, e, newChain);
    var text := c.canonical(SealedRecord(c, record)).value;
    NextOfSound(c, file, e, newChain);
    NextLineLinks(c, FileLines(file), e, ChainFor(c, file, newChain), record);
    RecordFacts(c, e, Str(ChainFor(c, file, newChain)), Int(|FileLines(file)| + 1),
                Str(HeadBefore(c, FileLines(file), |FileLines(file)|)));
    assert (text + [NEWLINE])[..|text|] == text;
    SoundFileGrows(c, file, text);
  }

  /**
    On a sound file an append succeeds exactly if there is no latch and the record can be written as JSON, and then
    the file is the same chain with one more record at its end.
  */
  lemma AppendKeepsChain(c: Codec, known: Option<Known>, f: FileState, e: Event, frozen: bool, newChain: string)
    requires Lawful(c) && SoundFile(c, f.bytes) && Fitting(known, f) && newChain != ""
    ensures var record := RecordFor(c, f.bytes, e, newChain);
            var prepared := Prepared(c, known, f, e, frozen, newChain);
            && (prepared.Success? <==> !frozen && c.canonical(record).Some?)
            && (prepared.Success? ==>
                  var (stored, data) := prepared.value;
                  && stored == SealedRecord(c, record) && FieldsOn(c, data) == stored
                  && data != [] && data[|data| - 1] == NEWLINE && NEWLINE !in data[..|data| - 1]
                  && SoundFile(c, f.bytes + data) && FileLines(f.bytes + data) == FileLines(f.bytes) + [data])
  {
    PreparedOnSound(c, known, f, e, frozen, newChain);
    if c.canonical(RecordFor(c, f.bytes, e, newChain)).Some? {
      NextRecordExtends(c, f.bytes, e, newChain);
    }
  }

  // ---- torn writes ----------------------------------------------------------------------------------------------------

  lemma LinesOfTorn(file: Bytes)
    requires !Closed(file)
    ensures var part := file[CompleteLength(file)..];
            FileLines(file) == FileLines(CompletePart(file)) + [part] && part != [] && part[|part| - 1] != NEWLINE
  {
    var part := file[CompleteLength(file)..];
    assert file == CompletePart(file) + part;
    FileLinesConcat(CompletePart(file), part);
    OneFileLine(part);
  }

  /** Behind a chain, a line without its newline ends the pass. */
  lemma ScanOfTorn(c: Codec, lines: seq<Bytes>, part: Bytes)
    requires IsChain(c, lines) && part != [] && part[|part| - 1] != NEWLINE
    ensures Scan(c, START, lines + [part]) == (ProgressAt(c, lines, |lines|), Some(TruncatedRecord))
    ensures Scan(c, START, lines) == (ProgressAt(c, lines, |lines|), None)
  {
    var all := lines + [part];
    assert all[..|lines|] == lines && all[0..] == all && lines[0..] == lines && all[|lines|] == part;
    ChainOfPrefix(c, all, |lines|);
    ScanFrom(c, all, 0);
    ScanFrom(c, lines, 0);
    assert !Linked(c, all, |lines|);
    assert ProgressAt(c, all, |lines|) == ProgressAt(c, lines, |lines|);
  }

  /** A file whose complete lines are sound and whose last line was torn: verification keeps what was valid before. */
  lemma TornIsReported(c: Codec, file: Bytes)
    requires SoundFile(c, CompletePart(file)) && !Closed(file)
    ensures var r, before := Verified(c, file), Verified(c, CompletePart(file));
            && r.failure == Some(TruncatedRecord) && r.progress == before.progress
            && r.progress.count == |FileLines(CompletePart(file))| && r.firstInvalid == Some(r.progress.count + 1)
  {
    LinesOfTorn(file);
    ScanOfTorn(c, FileLines(CompletePart(file)), file[CompleteLength(file)..]);
    SoundHistory(c, CompletePart(file));
  }

  /** After a torn write no append writes anything, whoever tries it. */
  lemma TornStopsAppends(c: Codec, known: Option<Known>, f: FileState, e: Event, frozen: bool, newChain: string)
    requires SoundFile(c, CompletePart(f.bytes)) && !Closed(f.bytes)
    ensures Prepared(c, known, f, e, frozen, newChain).Failure?
  {
    TornIsReported(c, f.bytes);
  }

  // ---- any interleaving of any writers ----------------------------------------------------------------------------------

  type WriterId = nat

  datatype Step =
    | Try(writer: WriterId, e: Event, frozen: bool, newChain: string, room: nat)
    | Restart(writer: WriterId)

  datatype Scene = Scene(f: FileState, writers: map<WriterId, Known>)

  function KnownBy(s: Scene, w: WriterId): Option<Known> {
    if w in s.writers then Some(s.writers[w]) else None
  }

  function Perform(c: Codec, s: Scene, step: Step): (Scene, Option<Fields>) {
    match step
    case Restart(w) => (s.(writers := s.writers - {w}), None)
    case Try(w, e, frozen, newChain, room) =>
      var (f, known, r) := Appended(c, KnownBy(s, w), s.f, e, frozen, newChain, room);
      (Scene(f, if known.Some? then s.writers[w := known.value] else s.writers),
       if r.Success? then Some(r.value) else None)
  }

  /** A run of appends under the lock, with the records that were returned to the callers. */
  function Run(c: Codec, s: Scene, steps: seq<Step>): (Scene, seq<Fields>) {
    if steps == [] then (s, [])
    else
      var (before, stored) := Run(c, s, steps[..|steps| - 1]);
      var (after, record) := Perform(c, before, steps[|steps| - 1]);
      (after, if record.Some? then stored + [record.value] else stored)
  }

  predicate NewChainsNamed(steps: seq<Step>) {
    forall k :: 0 <= k < |steps| && steps[k].Try? ==> steps[k].newChain != ""
  }

  ghost predicate AllFitting(s: Scene) {
    forall w :: Fitting(KnownBy(s, w), s.f)
  }

  /** The complete lines are a sound chain that holds what was there at first and then one record per success. */
  ghost predicate Kept(c: Codec, first: Bytes, s: Scene, stored: seq<Fields>) {
    && SoundFile(c, CompletePart(s.f.bytes)) && AllFitting(s)
    && Records(c, FileLines(CompletePart(s.f.bytes))) == Records(c, FileLines(first)) + stored
  }

  lemma ClosedIsComplete(file: Bytes)
    requires Closed(file)
    ensures CompletePart(file) == file
  {
    assert file[..|file|] == file && file[|file|..] == [];
    CompleteLengthIsUnique(file, |file|);
  }

  lemma PartOfLine(file: Bytes, data: Bytes, room: nat)
    requires Closed(file) && data != [] && data[|data| - 1] == NEWLINE && NEWLINE !in data[..|data| - 1]
    ensures CompletePart(file + Taken(data, room)) == if room < |data| then file else file + data
    ensures !Closed(file + Taken(data, room)) <==> 0 < room < |data|
  {
    var after := file + Taken(data, room);
    if room >= |data| {
      ClosedIsComplete(after);
    } else {
      assert Taken(data, room) == data[..|data| - 1][..room];
      assert after[..|file|] == file && after[|file|..] == Taken(data, room);
      CompleteLengthIsUnique(after, |file|);
    }
  }

  lemma RecordsGrow(c: Codec, lines: seq<Bytes>, line: Bytes)
    ensures Records(c, lines + [line]) == Records(c, lines) + [FieldsOn(c, line)]
  {
    assert (lines + [line])[..|lines|] == lines;
  }

  lemma FittingStays(s: Scene, f: FileState, w: WriterId, known: Option<Known>)
    requires AllFitting(s) && f.identity == s.f.identity && |s.f.bytes| <= |f.bytes| && Fitting(known, f)
    ensures AllFitting(Scene(f, if known.Some? then s.writers[w := known.value] else s.writers))
  {
    var t := Scene(f, if known.Some? then s.writers[w := known.value] else s.writers);
    forall v
      ensures Fitting(KnownBy(t, v), f)
    {
      assert Fitting(KnownBy(s, v), s.f);
    }
  }

  /** The complete lines after a write of `data`, of which the system took at most `room` bytes. */
  lemma WrittenRecords(c: Codec, first: Bytes, file: Bytes, stored: seq<Fields>, data: Bytes, room: nat)
    requires Closed(file) && SoundFile(c, file) && Records(c, FileLines(file)) == Records(c, FileLines(first)) + stored
    requires data != [] && data[|data| - 1] == NEWLINE && NEWLINE !in data[..|data| - 1]
    requires SoundFile(c, file + data) && FileLines(file + data) == FileLines(file) + [data]
    ensures var good := CompletePart(file + Taken(data, room));
            && SoundFile(c, good)
            && Records(c, FileLines(good)) == Records(c, FileLines(first)) +
              (if room < |data| then stored else stored + [FieldsOn(c, data)])
  {
    PartOfLine(file, data, room);
    RecordsGrow(c, FileLines(file), data);
    OneMore(Records(c, FileLines(first)), stored, FieldsOn(c, data));
  }

  lemma OneMore(before: seq<Fields>, stored: seq<Fields>, m: Fields)
    ensures before + stored + [m] == before + (stored + [m])
  {
  }

  /** The scene after a writer wrote `data`, of which the system took at most `room` bytes. */
  function Written(s: Scene, w: WriterId, data: Bytes, room: nat): Scene {
    var f := s.f.(bytes := s.f.bytes + Taken(data, room));
    Scene(f, if room < |data| then s.writers else s.writers[w := Known(f.identity, |f.bytes|)])
  }

  lemma SameWriter(s: Scene, w: WriterId)
    ensures KnownBy(s, w).Some? ==> s.writers[w := KnownBy(s, w).value] == s.writers
  {
  }

  lemma PerformWrites(c: Codec, s: Scene, step: Step)
    requires step.Try?
    ensures var prepared := Prepared(c, KnownBy(s, step.writer), s.f, step.e, step.frozen, step.newChain);
            && (prepared.Failure? ==> Perform(c, s, step) == (s, None))
            && (prepared.Success? ==>
                  && Perform(c, s, step).0 == Written(s, step.writer, prepared.value.1, step.room)
                  && Perform(c, s, step).1 == if step.room < |prepared.value.1| then None else Some(prepared.value.0))
  {
    SameWriter(s, step.writer);
  }

  lemma FittingWritten(s: Scene, w: WriterId, data: Bytes, room: nat)
    requires AllFitting(s)
    ensures AllFitting(Written(s, w, data, room))
  {
    var f := s.f.(bytes := s.f.bytes + Taken(data, room));
    assert Fitting(KnownBy(s, w), s.f);
    SameWriter(s, w);
    FittingStays(s, f, w, if room < |data| then KnownBy(s, w) else Some(Known(f.identity, |f.bytes|)));
  }

  lemma WriteKeeps(c: Codec, first: Bytes, s: Scene, stored: seq<Fields>, w: WriterId, data: Bytes, room: nat)
    requires Kept(c, first, s, stored) && Closed(s.f.bytes)
    requires data != [] && data[|data| - 1] == NEWLINE && NEWLINE !in data[..|data| - 1]
    requires SoundFile(c, s.f.bytes + data) && FileLines(s.f.bytes + data) == FileLines(s.f.bytes) + [data]
    ensures Kept(c, first, Written(s, w, data, room), if room < |data| then stored else stored + [FieldsOn(c, data)])
  {
    ClosedIsComplete(s.f.bytes);
    WrittenRecords(c, first, s.f.bytes, stored, data, room);
    FittingWritten(s, w, data, room);
  }

  lemma TryKeeps(c: Codec, first: Bytes, s: Scene, stored: seq<Fields>, step: Step)
    requires Lawful(c) && Kept(c, first, s, stored) && step.Try? && step.newChain != ""
    ensures var (after, record) := Perform(c, s, step);
            Kept(c, first, after, if record.Some? then stored + [record.value] else stored)
  {
    var known := KnownBy(s, step.writer);
    PerformWrites(c, s, step);
    assert Fitting(known, s.f);
    if Closed(s.f.bytes) {
      ClosedIsComplete(s.f.bytes);
      AppendKeepsChain(c, known, s.f, step.e, step.frozen, step.newChain);
      var prepared := Prepared(c, known, s.f, step.e, step.frozen, step.newChain);
      if prepared.Success? {
        WriteKeeps(c, first, s, stored, step.writer, prepared.value.1, step.room);
      }
    } else {
      TornStopsAppends(c, known, s.f, step.e, step.frozen, step.newChain);
    }
  }

  lemma RestartKeeps(c: Codec, first: Bytes, s: Scene, stored: seq<Fields>, step: Step)
    requires Kept(c, first, s, stored) && step.Restart?
    ensures Kept(c, first, Perform(c, s, step).0, stored)
  {
    var after := Perform(c, s, step).0;
    forall v
      ensures Fitting(KnownBy(after, v), after.f)
    {
      assert Fitting(KnownBy(s, v), s.f);
    }
  }

  /** Whatever the writers do, in any order and cut short anywhere, the file keeps one growing chain. */
  lemma {:induction false} EveryRunKeepsTheChain(c: Codec, s: Scene, steps: seq<Step>)
    requires Lawful(c) && SoundFile(c, s.f.bytes) && AllFitting(s) && NewChainsNamed(steps)
    ensures Kept(c, s.f.bytes, Run(c, s, steps).0, Run(c, s, steps).1)
  {
    if steps == [] {
      ClosedIsComplete(s.f.bytes);
    } else {
      var init, last := steps[..|steps| - 1], steps[|steps| - 1];
      EveryRunKeepsTheChain(c, s, init);
      var (before, stored) := Run(c, s, init);
      if last.Try? {
        TryKeeps(c, s.f.bytes, before, stored, last);
      } else {
        RestartKeeps(c, s.f.bytes, before, stored, last);
      }
    }
  }

  lemma {:induction false} RecordsCount(c: Codec, lines: seq<Bytes>)
    ensures |Records(c, lines)| == |lines|
  {
    if lines != [] {
      RecordsCount(c, lines[..|lines| - 1]);
    }
  }

  /** Nothing is written any more, whoever tries. */
  ghost predicate Stopped(c: Codec, s: Scene) {
    forall step :: Perform(c, s, step).0.f == s.f && Perform(c, s, step).1.None?
  }

  lemma TornStopsAll(c: Codec, s: Scene)
    requires SoundFile(c, CompletePart(s.f.bytes)) && !Closed(s.f.bytes)
    ensures Stopped(c, s)
  {
    forall step
      ensures Perform(c, s, step).0.f == s.f && Perform(c, s, step).1.None?
    {
      if step.Try? {
        TornStopsAppends(c, KnownBy(s, step.writer), s.f, step.e, step.frozen, step.newChain);
      }
    }
  }

  /**
    What a full verification says: as many records as at first and one for each success; valid unless a write was
    torn, and then the report names the torn line and no append writes anything any more.
  */
  ghost predicate VerifiesAs(c: Codec, first: Bytes, s: Scene, stored: seq<Fields>) {
    var r := Verified(c, s.f.bytes);
    && r.progress.count == |FileLines(first)| + |stored|
    && (r.Valid() <==> Closed(s.f.bytes))
    && (!r.Valid() ==>
          && r.failure == Some(TruncatedRecord) && r.firstInvalid == Some(r.progress.count + 1)
          && Stopped(c, s))
  }

  lemma VerifyOfKept(c: Codec, first: Bytes, s: Scene, stored: seq<Fields>)
    requires Kept(c, first, s, stored)
    ensures VerifiesAs(c, first, s, stored)
  {
    var file := s.f.bytes;
    SoundHistory(c, CompletePart(file));
    RecordsCount(c, FileLines(first));
    RecordsCount(c, FileLines(CompletePart(file)));
    if Closed(file) {
      ClosedIsComplete(file);
    } else {
      TornIsReported(c, file);
      TornStopsAll(c, s);
    }
  }

  /** At the end of any run, from any sound file, for any writers: the verdict counts every success, and a tear ends it. */
  lemma VerifyAfterAnyRun(c: Codec, s: Scene, steps: seq<Step>)
    requires Lawful(c) && SoundFile(c, s.f.bytes) && AllFitting(s) && NewChainsNamed(steps)
    ensures VerifiesAs(c, s.f.bytes, Run(c, s, steps).0, Run(c, s, steps).1)
  {
    EveryRunKeepsTheChain(c, s, steps);
    VerifyOfKept(c, s.f.bytes, Run(c, s, steps).0, Run(c, s, steps).1);
  }
}
