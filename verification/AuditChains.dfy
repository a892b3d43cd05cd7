/**
  The hash-chained audit file and its full verifier. What one pass over the lines reports is the longest prefix of
  lines that form a chain, and its head hash stands for the whole history.
*/
module AuditChains {
  import opened Wrappers
  import opened ByteLines

  // ---- JSON -------------------------------------------------------------------------------------------------

  datatype Value =
    | Null
    | Bool(b: bool)
    | Int(n: int)
    | Float(r: real)
    | NonFinite
    | Str(s: string)
    | List(items: seq<Value>)
    | Obj(fields: Fields)

  type Fields = map<string, Value>

  /** Python compares booleans, integers and floats by their number. */
  function Number(v: Value): Option<real> {
    match v
    case Bool(b) => Some(if b then 1.0 else 0.0)
    case Int(n) => Some(n as real)
    case Float(r) => Some(r)
    case _ => None
  }

  predicate IsVersion(v: Value, n: int) {
    Number(v) == Some(n as real)
  }

  /** `parse` reads a JSON text, `canonical` writes an object on one line where it can, `sha` is SHA-256 in hex. */
  datatype Codec = Codec(parse: Bytes -> Option<Value>, canonical: Fields -> Option<Bytes>, sha: Bytes -> string)

  const GENESIS := "GENESIS"
  const HASH_LENGTH := 64

  // ---- one line ---------------------------------------------------------------------------------------------

  datatype Failure =
    | TruncatedRecord | MalformedJson | MissingHash | BrokenPreviousHash | HashMismatch
    | SchemaMismatch | SequenceGap | ChainIdMismatch

  /** What the verifier carries from line to line. */
  datatype Progress = Progress(head: string, count: nat, chain: Option<string>, version: Option<Value>)

  const START := Progress(GENESIS, 0, None, None)

  function FieldsOn(c: Codec, line: Bytes): Fields {
    var v := c.parse(line);
    if v.Some? && v.value.Obj? then v.value.fields else map[]
  }

  function TextAt(m: Fields, key: string): string {
    if key in m && m[key].Str? then m[key].s else ""
  }

  function HashOf(m: Fields): string {
    TextAt(m, "record_hash")
  }

  function BodyOf(m: Fields): Fields {
    m - {"record_hash"}
  }

  function VersionOf(m: Fields): Value {
    if "schema_version" in m then m["schema_version"] else Int(1)
  }

  predicate Versioned(m: Fields) {
    IsVersion(VersionOf(m), 1) || IsVersion(VersionOf(m), 2)
  }

  /** One line after those of `p`. The line is judged in the order of the checks below. */
  function Judge(c: Codec, p: Progress, line: Bytes): Result<Progress, Failure> {
    var m := FieldsOn(c, line);
    var body := BodyOf(m);
    if line == [] || line[|line| - 1] != NEWLINE then Failure(TruncatedRecord)
    else if c.parse(line).None? || !c.parse(line).value.Obj? then Failure(MalformedJson)
    else if "record_hash" !in m || !m["record_hash"].Str? || |m["record_hash"].s| != HASH_LENGTH then Failure(MissingHash)
    else if "previous_hash" !in body || body["previous_hash"] != Str(p.head) then Failure(BrokenPreviousHash)
    else if c.canonical(body).None? then Failure(MalformedJson)
    else if c.sha(c.canonical(body).value) != m["record_hash"].s then Failure(HashMismatch)
    else if !Versioned(m) || (p.count > 0 && p.version.Some? && Number(VersionOf(m)) != Number(p.version.value)) then
      Failure(SchemaMismatch)
    else if !IsVersion(VersionOf(m), 2) then
      Success(Progress(m["record_hash"].s, p.count + 1, p.chain, Some(VersionOf(m))))
    else if "sequence" !in body || body["sequence"] != Int(p.count + 1) then Failure(SequenceGap)
    else if TextAt(body, "chain_id") == "" then Failure(ChainIdMismatch)
    else if p.count > 0 && Some(TextAt(body, "chain_id")) != p.chain then Failure(ChainIdMismatch)
    else Success(Progress(m["record_hash"].s, p.count + 1, Some(TextAt(body, "chain_id")), Some(VersionOf(m))))
  }

  /** The pass over all lines: where it ended, and why if it ended early. */
  function Scan(c: Codec, p: Progress, lines: seq<Bytes>): (Progress, Option<Failure>)
    decreases |lines|
  {
    if lines == [] then (p, None)
    else
      match Judge(c, p, lines[0])
      case Success(q) => Scan(c, q, lines[1..])
      case Failure(f) => (p, Some(f))
  }

  datatype Report = Report(progress: Progress, failure: Option<Failure>, firstInvalid: Option<nat>) {
    predicate Valid() {
      failure.None?
    }
  }

  function Verified(c: Codec, file: Bytes): Report {
    var (p, failure) := Scan(c, START, FileLines(file));
    Report(p, failure, if failure.Some? then Some(p.count + 1) else None)
  }

  lemma ScanStep(c: Codec, p: Progress, rest: Bytes)
    requires rest != []
    ensures var judged := Judge(c, p, rest[..FirstLine(rest)]);
            Scan(c, p, FileLines(rest)) ==
              if judged.Success? then Scan(c, judged.value, FileLines(rest[FirstLine(rest)..])) else (p, Some(judged.error))
  {
    var lines := FileLines(rest);
    assert lines[0] == rest[..FirstLine(rest)] && lines[1..] == FileLines(rest[FirstLine(rest)..]);
  }

  lemma JudgeCounts(c: Codec, p: Progress, line: Bytes)
    ensures Judge(c, p, line).Success? ==> Judge(c, p, line).value.count == p.count + 1
  {
  }

  /** One pass over the open file, line by line. */
  method VerifyStream(c: Codec, file: Bytes) returns (r: Report)
    ensures r == Verified(c, file)
  {
    var p, rest, number := START, file, 0;
    while rest != []
      invariant number == p.count
      invariant Scan(c, START, FileLines(file)) == Scan(c, p, FileLines(rest))
      decreases |rest|
    {
      var line := rest[..FirstLine(rest)];
      ScanStep(c, p, rest);
      JudgeCounts(c, p, line);
      number := number + 1;
      var judged := Judge(c, p, line);
      if judged.Failure? {
        return Report(p, Some(judged.error), Some(number));
      }
      p := judged.value;
      rest := rest[FirstLine(rest)..];
    }
    r := Report(p, None, None);
  }

  // ---- a chain, said once for all lines -----------------------------------------------------------------------

  function HeadBefore(c: Codec, lines: seq<Bytes>, k: nat): string
    requires k <= |lines|
  {
    if k == 0 then GENESIS else HashOf(FieldsOn(c, lines[k - 1]))
  }

  /** A line that is an object carrying the hash of the rest of it. */
  ghost predicate Sealed(c: Codec, line: Bytes) {
    var m := FieldsOn(c, line);
    && Closed(line) && line != [] && c.parse(line).Some? && c.parse(line).value.Obj?
    && c.canonical(BodyOf(m)).Some?
    && "record_hash" in m && m["record_hash"] == Str(c.sha(c.canonical(BodyOf(m)).value)) && |HashOf(m)| == HASH_LENGTH
  }

  /** Line `k` is sealed, names the hash of the line before it, and continues the same version, chain and count. */
  ghost predicate Linked(c: Codec, lines: seq<Bytes>, k: nat)
    requires k < |lines|
  {
    var m := FieldsOn(c, lines[k]);
    && Sealed(c, lines[k])
    && "previous_hash" in m && m["previous_hash"] == Str(HeadBefore(c, lines, k))
    && Versioned(m)
    && (k > 0 ==> Number(VersionOf(m)) == Number(VersionOf(FieldsOn(c, lines[k - 1]))))
    && (IsVersion(VersionOf(m), 2) ==>
          && "sequence" in m && m["sequence"] == Int(k + 1) && TextAt(m, "chain_id") != ""
          && (k > 0 ==> TextAt(m, "chain_id") == TextAt(FieldsOn(c, lines[k - 1]), "chain_id")))
  }

  ghost predicate IsChain(c: Codec, lines: seq<Bytes>) {
    forall k :: 0 <= k < |lines| ==> Linked(c, lines, k)
  }

  /** What the verifier carries behind `k` good lines. */
  function ProgressAt(c: Codec, lines: seq<Bytes>, k: nat): Progress
    requires k <= |lines|
  {
    if k == 0 then START
    else
      var m := FieldsOn(c, lines[k - 1]);
      Progress(HashOf(m), k, if IsVersion(VersionOf(m), 2) then Some(TextAt(m, "chain_id")) else None, Some(VersionOf(m)))
  }

  lemma JudgeIsLink(c: Codec, lines: seq<Bytes>, k: nat)
    requires k < |lines| && (k > 0 ==> Linked(c, lines, k - 1))
    ensures Judge(c, ProgressAt(c, lines, k), lines[k]).Success? <==> Linked(c, lines, k)
    ensures Linked(c, lines, k) ==> Judge(c, ProgressAt(c, lines, k), lines[k]) == Success(ProgressAt(c, lines, k + 1))
  {
  }

  lemma {:induction false} ScanFrom(c: Codec, lines: seq<Bytes>, k: nat)
    requires k <= |lines| && forall i :: 0 <= i < k ==> Linked(c, lines, i)
    ensures var (p, failure) := Scan(c, ProgressAt(c, lines, k), lines[k..]);
            && k <= p.count <= |lines| && p == ProgressAt(c, lines, p.count)
            && (forall i :: 0 <= i < p.count ==> Linked(c, lines, i))
            && (failure.None? <==> p.count == |lines|)
            && (p.count < |lines| ==>
                  && !Linked(c, lines, p.count)
                  && Judge(c, p, lines[p.count]) == Failure(failure.value))
    decreases |lines| - k
  {
    if k < |lines| {
      JudgeIsLink(c, lines, k);
      assert lines[k..][0] == lines[k] && lines[k..][1..] == lines[k + 1..];
      if Linked(c, lines, k) {
        ScanFrom(c, lines, k + 1);
      }
    }
  }

  lemma LinkedInPrefix(c: Codec, lines: seq<Bytes>, n: nat, k: nat)
    requires k < n <= |lines|
    ensures Linked(c, lines[..n], k) <==> Linked(c, lines, k)
  {
    assert lines[..n][k] == lines[k];
    assert k > 0 ==> lines[..n][k - 1] == lines[k - 1];
  }

  lemma ChainOfPrefix(c: Codec, lines: seq<Bytes>, n: nat)
    requires n <= |lines|
    ensures IsChain(c, lines[..n]) <==> forall k :: 0 <= k < n ==> Linked(c, lines, k)
  {
    forall k | 0 <= k < n
      ensures Linked(c, lines[..n], k) <==> Linked(c, lines, k)
    {
      LinkedInPrefix(c, lines, n, k);
    }
  }

  /**
    The report is that of the longest prefix of lines that form a chain: so many records, with the head of the last of
    them, and the first invalid line right behind. The file is valid exactly if all its lines form a chain.
  */
  lemma LongestValidPrefix(c: Codec, file: Bytes)
    ensures var lines, r := FileLines(file), Verified(c, file);
            && r.progress.count <= |lines| && IsChain(c, lines[..r.progress.count])
            && (forall n :: 0 <= n <= |lines| && IsChain(c, lines[..n]) ==> n <= r.progress.count)
            && r.progress.head == HeadBefore(c, lines, r.progress.count)
            && (r.Valid() <==> IsChain(c, lines)) && (r.Valid() <==> r.progress.count == |lines|)
            && (r.Valid() ==> r.firstInvalid.None?) && (!r.Valid() ==> r.firstInvalid == Some(r.progress.count + 1))
  {
    var lines, n := FileLines(file), Verified(c, file).progress.count;
    assert lines[0..] == lines;
    ScanFrom(c, lines, 0);
    ChainOfPrefix(c, lines, n);
    ChainOfPrefix(c, lines, |lines|);
    assert lines[..|lines|] == lines;
    forall k | 0 <= k <= |lines| && IsChain(c, lines[..k])
      ensures k <= n
    {
      ChainOfPrefix(c, lines, k);
    }
  }

  // ---- what a failure says of its line --------------------------------------------------------------------------

  predicate IsRecord(c: Codec, line: Bytes) {
    line != [] && line[|line| - 1] == NEWLINE && c.parse(line).Some? && c.parse(line).value.Obj?
  }

  predicate CarriesHash(m: Fields) {
    "record_hash" in m && m["record_hash"].Str? && |HashOf(m)| == HASH_LENGTH
  }

  predicate NamesBefore(c: Codec, lines: seq<Bytes>, k: nat, m: Fields)
    requires k < |lines|
  {
    "previous_hash" in m && m["previous_hash"] == Str(HeadBefore(c, lines, k))
  }

  predicate HashIsRight(c: Codec, m: Fields) {
    c.canonical(BodyOf(m)).Some? && HashOf(m) == c.sha(c.canonical(BodyOf(m)).value)
  }

  predicate SameVersion(c: Codec, lines: seq<Bytes>, k: nat, m: Fields)
    requires k < |lines|
  {
    Versioned(m) && (k > 0 ==> Number(VersionOf(m)) == Number(VersionOf(FieldsOn(c, lines[k - 1]))))
  }

  predicate Counted(k: nat, m: Fields) {
    "sequence" in m && m["sequence"] == Int(k + 1)
  }

  predicate SameChain(c: Codec, lines: seq<Bytes>, k: nat, m: Fields)
    requires k < |lines|
  {
    TextAt(m, "chain_id") != "" && (k > 0 ==> TextAt(m, "chain_id") == TextAt(FieldsOn(c, lines[k - 1]), "chain_id"))
  }

  /** The defect of line `k` that each failure names; what is asked before it holds. */
  predicate HasDefect(c: Codec, lines: seq<Bytes>, k: nat, failure: Failure)
    requires k < |lines|
  {
    var m := FieldsOn(c, lines[k]);
    var named := IsRecord(c, lines[k]) && CarriesHash(m) && NamesBefore(c, lines, k, m);
    var versioned := named && HashIsRight(c, m) && SameVersion(c, lines, k, m);
    match failure
    case TruncatedRecord => !(lines[k] != [] && lines[k][|lines[k]| - 1] == NEWLINE)
    case MalformedJson =>
      && lines[k] != [] && lines[k][|lines[k]| - 1] == NEWLINE
      && (!IsRecord(c, lines[k]) || (named && c.canonical(BodyOf(m)).None?))
    case MissingHash => IsRecord(c, lines[k]) && !CarriesHash(m)
    case BrokenPreviousHash => IsRecord(c, lines[k]) && CarriesHash(m) && !NamesBefore(c, lines, k, m)
    case HashMismatch => named && c.canonical(BodyOf(m)).Some? && !HashIsRight(c, m)
    case SchemaMismatch => named && HashIsRight(c, m) && !SameVersion(c, lines, k, m)
    case SequenceGap => versioned && IsVersion(VersionOf(m), 2) && !Counted(k, m)
    case ChainIdMismatch => versioned && IsVersion(VersionOf(m), 2) && Counted(k, m) && !SameChain(c, lines, k, m)
  }

  lemma BodyHolds(m: Fields, key: string)
    requires key != "record_hash"
    ensures key in BodyOf(m) <==> key in m
    ensures key in m ==> BodyOf(m)[key] == m[key]
    ensures TextAt(BodyOf(m), key) == TextAt(m, key)
  {
  }

  lemma JudgedByDefect(c: Codec, lines: seq<Bytes>, k: nat, failure: Failure)
    requires k < |lines| && (k > 0 ==> Linked(c, lines, k - 1))
    ensures Judge(c, ProgressAt(c, lines, k), lines[k]) == Failure(failure) <==> HasDefect(c, lines, k, failure)
  {
    var m := FieldsOn(c, lines[k]);
    BodyHolds(m, "previous_hash");
    BodyHolds(m, "sequence");
    BodyHolds(m, "chain_id");
  }

  /** The first line that does not continue the chain before it. */
  ghost predicate FirstUnlinked(c: Codec, lines: seq<Bytes>, k: nat) {
    k < |lines| && !Linked(c, lines, k) && forall i :: 0 <= i < k ==> Linked(c, lines, i)
  }

  /** Verification fails for a reason exactly if the first line that breaks the chain has that defect. */
  lemma FailuresAreNamed(c: Codec, file: Bytes, failure: Failure)
    ensures var lines := FileLines(file);
            Verified(c, file).failure == Some(failure) <==>
              exists k :: FirstUnlinked(c, lines, k) && HasDefect(c, lines, k, failure)
    ensures var lines, p := FileLines(file), Verified(c, file).progress;
            p.count <= |lines| && p == ProgressAt(c, lines, p.count)
  {
    var lines, r := FileLines(file), Verified(c, file);
    var n := r.progress.count;
    assert lines[0..] == lines;
    ScanFrom(c, lines, 0);
    if n < |lines| {
      JudgedByDefect(c, lines, n, failure);
      assert FirstUnlinked(c, lines, n);
    }
    forall k | FirstUnlinked(c, lines, k)
      ensures k == n
    {
      NoneBefore(c, lines, k, n);
    }
  }

  lemma NoneBefore(c: Codec, lines: seq<Bytes>, k: nat, n: nat)
    requires FirstUnlinked(c, lines, k) && n <= |lines| && (forall i :: 0 <= i < n ==> Linked(c, lines, i))
    requires n < |lines| ==> !Linked(c, lines, n)
    ensures k == n
  {
  }

  // ---- the head stands for the history -------------------------------------------------------------------------

  /** The parsed records of a file, hashes included. */
  function Records(c: Codec, lines: seq<Bytes>): seq<Fields> {
    if lines == [] then [] else Records(c, lines[..|lines| - 1]) + [FieldsOn(c, lines[|lines| - 1])]
  }

  /** No two different bodies among these lines have one hash. */
  ghost predicate NoCollision(c: Codec, a: seq<Bytes>, b: seq<Bytes>) {
    forall j, k :: 0 <= j < |a| && 0 <= k < |b| ==>
      var x, y := BodyOf(FieldsOn(c, a[j])), BodyOf(FieldsOn(c, b[k]));
      c.canonical(x).Some? && c.canonical(y).Some? && c.sha(c.canonical(x).value) == c.sha(c.canonical(y).value) ==> x == y
  }

  lemma SealedBodies(m: Fields, n: Fields)
    requires BodyOf(m) == BodyOf(n) && "record_hash" in m && "record_hash" in n && m["record_hash"] == n["record_hash"]
    ensures m == n
  {
    forall key
      ensures key in m <==> key in n
      ensures key in m ==> m[key] == n[key]
    {
      if key != "record_hash" {
        assert key in m <==> key in BodyOf(m);
        assert key in n <==> key in BodyOf(n);
      }
    }
  }

  /** The last records of two chains with one head are the same, and so are the heads before them. */
  lemma LastRecords(c: Codec, a: seq<Bytes>, b: seq<Bytes>)
    requires a != [] && b != [] && Linked(c, a, |a| - 1) && Linked(c, b, |b| - 1) && NoCollision(c, a, b)
    requires HeadBefore(c, a, |a|) == HeadBefore(c, b, |b|)
    ensures FieldsOn(c, a[|a| - 1]) == FieldsOn(c, b[|b| - 1])
    ensures HeadBefore(c, a, |a| - 1) == HeadBefore(c, b, |b| - 1)
  {
    var x, y := FieldsOn(c, a[|a| - 1]), FieldsOn(c, b[|b| - 1]);
    assert BodyOf(x) == BodyOf(y);
    SealedBodies(x, y);
  }

  /** The head of a chain with records is a hash, and "GENESIS" is too short to be one. */
  lemma HeadIsNotGenesis(c: Codec, lines: seq<Bytes>)
    requires lines != [] && IsChain(c, lines)
    ensures HeadBefore(c, lines, |lines|) != GENESIS
  {
    assert Linked(c, lines, |lines| - 1);
  }

  lemma {:induction false} SameHeadSameRecords(c: Codec, a: seq<Bytes>, b: seq<Bytes>)
    requires IsChain(c, a) && IsChain(c, b) && NoCollision(c, a, b)
    requires HeadBefore(c, a, |a|) == HeadBefore(c, b, |b|)
    ensures Records(c, a) == Records(c, b)
    decreases |a|
  {
    if a != [] {
      HeadIsNotGenesis(c, a);
    }
    if b != [] {
      HeadIsNotGenesis(c, b);
    }
    if a != [] && b != [] {
      var x, y := a[..|a| - 1], b[..|b| - 1];
      LastRecords(c, a, b);
      assert a[..|a|] == a && b[..|b|] == b;
      ChainOfPrefix(c, a, |x|);
      ChainOfPrefix(c, b, |y|);
      assert HeadBefore(c, x, |x|) == HeadBefore(c, a, |x|) && HeadBefore(c, y, |y|) == HeadBefore(c, b, |y|);
      SameHeadSameRecords(c, x, y);
    }
  }

  /** Two files that verify with one head hash hold the same records. */
  lemma HeadDeterminesHistory(c: Codec, f: Bytes, g: Bytes)
    requires Verified(c, f).Valid() && Verified(c, g).Valid()
    requires Verified(c, f).progress.head == Verified(c, g).progress.head
    requires NoCollision(c, FileLines(f), FileLines(g))
    ensures Records(c, FileLines(f)) == Records(c, FileLines(g))
  {
    LongestValidPrefix(c, f);
    LongestValidPrefix(c, g);
    SameHeadSameRecords(c, FileLines(f), FileLines(g));
  }
}
