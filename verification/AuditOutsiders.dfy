/** Audit writers on a path whose file others replace or truncate between appends, in any order and any number of times. */
module AuditOutsiders {
  import opened Wrappers
  import opened ByteLines
  import opened AuditChains
  import opened AuditLogs

  // ---- what an append answers about the file it meets -------------------------------------------------------------

  /** The latch comes first, and then the file that a writer knows: exactly then these two are the answer. */
  lemma RefusalsAreExact(c: Codec, known: Option<Known>, f: FileState, e: Event, frozen: bool, newChain: string, room: nat)
    ensures var r := Appended(c, known, f, e, frozen, newChain, room).2;
            && (r == Failure(Frozen) <==> frozen)
            && (r == Failure(ReplacedOrTruncated) <==> !frozen && !Fitting(known, f))
  {
    TailIsNeither(c, f.bytes);
  }

  lemma TailIsNeither(c: Codec, file: Bytes)
    ensures TailOf(c, file) != Failure(Frozen) && TailOf(c, file) != Failure(ReplacedOrTruncated)
  {
  }

  /** A refused append leaves the file and the writer as they are. */
  lemma RefusedLeavesAll(c: Codec, known: Option<Known>, f: FileState, e: Event, frozen: bool, newChain: string, room: nat)
    requires frozen || !Fitting(known, f)
    ensures var (g, k, r) := Appended(c, known, f, e, frozen, newChain, room);
            g == f && k == known && r == Failure(if frozen then Frozen else ReplacedOrTruncated)
  {
    RefusalsAreExact(c, known, f, e, frozen, newChain, room);
  }

  /** A writer that knows no file appends to one only if all of it verifies and is of version 2. */
  lemma StrangersVerify(c: Codec, f: FileState, e: Event, frozen: bool, newChain: string, room: nat)
    requires Appended(c, None, f, e, frozen, newChain, room).2.Success?
    ensures Verified(c, f.bytes).Valid()
    ensures var p := Verified(c, f.bytes).progress; p.count > 0 && p.version.Some? ==> IsVersion(p.version.value, 2)
  {
  }

  /** What a writer that appended whole knows is the file as it left it. */
  lemma KnowsWhatItLeft(c: Codec, known: Option<Known>, f: FileState, e: Event, frozen: bool, newChain: string, room: nat)
    ensures var (g, k, r) := Appended(c, known, f, e, frozen, newChain, room);
            && g.identity == f.identity && f.bytes <= g.bytes
            && (r.Success? ==> Fitting(known, f) && k == Some(Known(g.identity, |g.bytes|)))
            && (r.Failure? ==> k == known)
  {
    RefusalsAreExact(c, known, f, e, frozen, newChain, room);
  }

  /** The last line of a file is an object of version 2 that carries the hash of the rest of it. */
  ghost predicate SoundLast(c: Codec, file: Bytes) {
    && file != [] && file[|file| - 1] == NEWLINE
    && c.parse(LastLine(file)).Some? && c.parse(LastLine(file)).value.Obj?
    && var m := c.parse(LastLine(file)).value.fields;
       && "record_hash" in m && c.canonical(BodyOf(m)).Some? && m["record_hash"] == Str(c.sha(c.canonical(BodyOf(m)).value))
       && "schema_version" in m && IsVersion(m["schema_version"], 2)
  }

  lemma TailIsSoundLast(c: Codec, file: Bytes)
    ensures TailOf(c, file) == Success(None) <==> file == []
    ensures TailOf(c, file).Success? && file != [] <==> SoundLast(c, file)
    ensures SoundLast(c, file) ==> TailOf(c, file) == Success(Some(c.parse(LastLine(file)).value.fields))
  {
  }

  /**
    Whoever appends, and whatever others did to the file: an append succeeds only on an empty file or behind a last
    record that carries its own hash, and the new record continues that one.
  */
  lemma ContinuesItsTail(c: Codec, known: Option<Known>, f: FileState, e: Event, frozen: bool, newChain: string, room: nat)
    requires Appended(c, known, f, e, frozen, newChain, room).2.Success?
    ensures f.bytes == [] || SoundLast(c, f.bytes)
    ensures var body := BodyOf(Appended(c, known, f, e, frozen, newChain, room).2.value);
            if f.bytes == [] then body == RecordOf(e, Str(newChain), Int(1), Str(GENESIS))
            else
              var m := c.parse(LastLine(f.bytes)).value.fields;
              && "chain_id" in m && "sequence" in m && PlusOne(m["sequence"]).Some?
              && body == RecordOf(e, m["chain_id"], PlusOne(m["sequence"]).value, m["record_hash"])
  {
    TailIsSoundLast(c, f.bytes);
    var record := NextRecord(e, TailOf(c, f.bytes).value, newChain).value;
    assert "record_hash" !in record;
    assert BodyOf(SealedRecord(c, record)) == record;
  }

  /** Each fact of the caller and of the process is recorded under its own name. */
  lemma RecordSays(e: Event, chain: Value, sequence: Value, previous: Value)
    ensures var m := RecordOf(e, chain, sequence, previous);
            && "timestamp" in m && m["timestamp"] == Str(e.timestamp)
            && "writer_pid" in m && m["writer_pid"] == Int(e.writerPid)
            && "writer_instance_id" in m && m["writer_instance_id"] == Str(e.writerInstance)
            && "session_id" in m && m["session_id"] == Str(e.sessionId)
            && "request_id" in m && m["request_id"] == Str(e.requestId)
            && "runtime_release" in m && m["runtime_release"] == Str(e.release)
    ensures var m := RecordOf(e, chain, sequence, previous);
            && "action" in m && m["action"] == Str(e.action) && "outcome" in m && m["outcome"] == Str(e.outcome)
            && "details" in m && m["details"] == Obj(e.details)
            && "workspace_id" in m && m["workspace_id"] == (if e.workspaceId.Some? then Str(e.workspaceId.value) else Null)
  {
  }

  // ---- runs with outsiders ------------------------------------------------------------------------------------------

  /** A step of a writer, or whatever others leave at the path. */
  datatype Mixed = Ours(step: Step) | Outside(f: FileState)

  function Act(c: Codec, s: Scene, m: Mixed): Scene {
    match m
    case Ours(step) => Perform(c, s, step).0
    case Outside(f) => s.(f := f)
  }

  function MixedRun(c: Codec, s: Scene, steps: seq<Mixed>): Scene {
    if steps == [] then s else Act(c, MixedRun(c, s, steps[..|steps| - 1]), steps[|steps| - 1])
  }

  /** What the `n`th step meets. */
  function SceneAt(c: Codec, s: Scene, steps: seq<Mixed>, n: nat): Scene
    requires n <= |steps|
  {
    MixedRun(c, s, steps[..n])
  }

  lemma NextScene(c: Codec, s: Scene, steps: seq<Mixed>, n: nat)
    requires n < |steps|
    ensures SceneAt(c, s, steps, n + 1) == Act(c, SceneAt(c, s, steps, n), steps[n])
  {
    assert steps[..n + 1][..n] == steps[..n];
  }

  predicate Tries(m: Mixed, w: WriterId) {
    m.Ours? && m.step.Try? && m.step.writer == w
  }

  predicate Restarts(m: Mixed, w: WriterId) {
    m.Ours? && m.step.Restart? && m.step.writer == w
  }

  function Answered(c: Codec, s: Scene, m: Mixed, w: WriterId): Result<Fields, AuditError>
    requires Tries(m, w)
  {
    Appended(c, KnownBy(s, w), s.f, m.step.e, m.step.frozen, m.step.newChain, m.step.room).2
  }

  /** The writer knows the file as it was then, or as it left that same file later. */
  predicate KnowsSince(s: Scene, w: WriterId, f: FileState) {
    var known := KnownBy(s, w);
    known.Some? && known.value.identity == f.identity && known.value.size >= |f.bytes|
  }

  lemma OwnTry(c: Codec, s: Scene, m: Mixed, w: WriterId)
    requires Tries(m, w)
    ensures var (g, k, r) := Appended(c, KnownBy(s, w), s.f, m.step.e, m.step.frozen, m.step.newChain, m.step.room);
            Act(c, s, m).f == g && KnownBy(Act(c, s, m), w) == (if k.Some? then k else KnownBy(s, w))
  {
  }

  lemma KnowledgeStays(c: Codec, s: Scene, m: Mixed, w: WriterId, f: FileState)
    requires KnowsSince(s, w, f) && !Restarts(m, w)
    ensures KnowsSince(Act(c, s, m), w, f)
  {
    if Tries(m, w) {
      OwnTry(c, s, m, w);
      KnowsWhatItLeft(c, KnownBy(s, w), s.f, m.step.e, m.step.frozen, m.step.newChain, m.step.room);
    }
  }

  /** Since the success at `m` the writer has not been started again. */
  predicate SameLife(steps: seq<Mixed>, m: nat, n: nat, w: WriterId) {
    m < n <= |steps| && forall k :: m < k < n ==> !Restarts(steps[k], w)
  }

  ghost predicate SucceedsAt(c: Codec, s: Scene, steps: seq<Mixed>, m: nat, w: WriterId) {
    m < |steps| && Tries(steps[m], w) && Answered(c, SceneAt(c, s, steps, m), steps[m], w).Success?
  }

  lemma {:induction false} KnowledgeLasts(c: Codec, s: Scene, steps: seq<Mixed>, m: nat, n: nat, w: WriterId)
    requires SucceedsAt(c, s, steps, m, w) && SameLife(steps, m, n, w)
    ensures KnowsSince(SceneAt(c, s, steps, n), w, SceneAt(c, s, steps, m + 1).f)
    decreases n
  {
    if n == m + 1 {
      var before, step := SceneAt(c, s, steps, m), steps[m].step;
      NextScene(c, s, steps, m);
      OwnTry(c, before, steps[m], w);
      KnowsWhatItLeft(c, KnownBy(before, w), before.f, step.e, step.frozen, step.newChain, step.room);
    } else {
      KnowledgeLasts(c, s, steps, m, n - 1, w);
      NextScene(c, s, steps, n - 1);
      KnowledgeStays(c, SceneAt(c, s, steps, n - 1), steps[n - 1], w, SceneAt(c, s, steps, m + 1).f);
    }
  }

  /**
    Whatever others put in the place of the file, as often as they like: a writer that has appended once, and was not
    started again, appends only to that same file and only if it is at least as long as the writer left it. On any other
    it changes nothing and says so, unless the latch stands.
  */
  lemma WritersKeepToTheirFile(c: Codec, s: Scene, steps: seq<Mixed>, m: nat, n: nat, w: WriterId)
    requires SucceedsAt(c, s, steps, m, w) && SameLife(steps, m, n, w) && n < |steps| && Tries(steps[n], w)
    ensures var left, met := SceneAt(c, s, steps, m + 1).f, SceneAt(c, s, steps, n).f;
            && (SucceedsAt(c, s, steps, n, w) ==> met.identity == left.identity && |met.bytes| >= |left.bytes|)
            && (met.identity != left.identity || |met.bytes| < |left.bytes| ==>
                  && SceneAt(c, s, steps, n + 1) == SceneAt(c, s, steps, n)
                  && Answered(c, SceneAt(c, s, steps, n), steps[n], w)
                     == Failure(if steps[n].step.frozen then Frozen else ReplacedOrTruncated))
  {
    var before, step := SceneAt(c, s, steps, n), steps[n].step;
    KnowledgeLasts(c, s, steps, m, n, w);
    NextScene(c, s, steps, n);
    if step.frozen || !Fitting(KnownBy(before, w), before.f) {
      RefusedLeavesAll(c, KnownBy(before, w), before.f, step.e, step.frozen, step.newChain, step.room);
      SameWriter(before, w);
    }
  }

  // ---- what the path holds ----------------------------------------------------------------------------------------------

  /** Others leave files whose complete lines are sound, and chains are named. */
  ghost predicate SoundSteps(c: Codec, steps: seq<Mixed>) {
    forall k :: 0 <= k < |steps| ==>
      match steps[k]
      case Outside(f) => SoundFile(c, CompletePart(f.bytes))
      case Ours(step) => step.Try? ==> step.newChain != ""
  }

  /** The complete lines hold what they held, and the record that was returned, if one was. */
  ghost predicate OneRecordMore(c: Codec, before: Bytes, after: Bytes, record: Option<Fields>) {
    && SoundFile(c, CompletePart(after))
    && Records(c, FileLines(CompletePart(after)))
       == Records(c, FileLines(CompletePart(before))) + (if record.Some? then [record.value] else [])
  }

  lemma NothingMore(c: Codec, file: Bytes)
    requires SoundFile(c, CompletePart(file))
    ensures OneRecordMore(c, file, file, None)
  {
    var records := Records(c, FileLines(CompletePart(file)));
    assert records + [] == records;
  }

  lemma WriteAddsOne(c: Codec, file: Bytes, stored: Fields, data: Bytes, room: nat)
    requires Closed(file) && SoundFile(c, file) && FieldsOn(c, data) == stored
    requires data != [] && data[|data| - 1] == NEWLINE && NEWLINE !in data[..|data| - 1]
    requires SoundFile(c, file + data) && FileLines(file + data) == FileLines(file) + [data]
    ensures OneRecordMore(c, file, file + Taken(data, room), if room < |data| then None else Some(stored))
  {
    var records := Records(c, FileLines(file));
    ClosedIsComplete(file);
    assert records + [] == records && [] + [stored] == [stored];
    WrittenRecords(c, file, file, [], data, room);
  }

  /** An append finds a sound chain and makes it one record longer, tears it, or leaves it. */
  lemma TryStaysSound(c: Codec, s: Scene, step: Step)
    requires Lawful(c) && SoundFile(c, CompletePart(s.f.bytes)) && step.Try? && step.newChain != ""
    ensures OneRecordMore(c, s.f.bytes, Perform(c, s, step).0.f.bytes, Perform(c, s, step).1)
  {
    var known := KnownBy(s, step.writer);
    var prepared := Prepared(c, known, s.f, step.e, step.frozen, step.newChain);
    NothingMore(c, s.f.bytes);
    PerformWrites(c, s, step);
    if !Fitting(known, s.f) || step.frozen {
      RefusedLeavesAll(c, known, s.f, step.e, step.frozen, step.newChain, step.room);
    } else if !Closed(s.f.bytes) {
      TornStopsAppends(c, known, s.f, step.e, step.frozen, step.newChain);
    } else if prepared.Success? {
      ClosedIsComplete(s.f.bytes);
      AppendKeepsChain(c, known, s.f, step.e, step.frozen, step.newChain);
      WriteAddsOne(c, s.f.bytes, prepared.value.0, prepared.value.1, step.room);
    }
  }

  /** Between what others leave, the file is always a sound chain, and each append that succeeds is its last record. */
  lemma {:induction false} MixedRunStaysSound(c: Codec, s: Scene, steps: seq<Mixed>, n: nat)
    requires Lawful(c) && SoundFile(c, CompletePart(s.f.bytes)) && SoundSteps(c, steps) && n <= |steps|
    ensures SoundFile(c, CompletePart(SceneAt(c, s, steps, n).f.bytes))
  {
    if n > 0 {
      MixedRunStaysSound(c, s, steps, n - 1);
      NextScene(c, s, steps, n - 1);
      var before := SceneAt(c, s, steps, n - 1);
      match steps[n - 1]
      case Outside(f) =>
      case Ours(step) =>
        if step.Try? {
          TryStaysSound(c, before, step);
        }
    }
  }
}
