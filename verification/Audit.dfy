/**
The hash-chained audit log (`src/audit.rs`), down to its bytes: one JSON record
per line, each naming the hash of the one before. Hashing and JSON coding are
functions of an `Env`; nothing is assumed of the hash, so tamper evidence reads
"equal, or here is a collision".
*/
module Audit {
  import opened Options
  import opened Bytes
  import JsonScan

  const MAX_AUDIT_RECORD_BYTES: nat := 16 * 1024
  const MAX_AUDIT_RECORDS: nat := 10_000_000

  datatype Details = Details(requestId: Option<string>, rest: string)

  datatype AuditRecord = AuditRecord(
    schema: nat, sequence: nat, eventId: nat, wallTime: int, uid: nat, pid: nat,
    action: string, outcome: string, runId: string, details: Option<Details>,
    previous: Option<string>, hash: string)

  datatype Env = Env(
    digest: AuditRecord -> string,               // "sha256:" and the hex digest of the canonical bytes
    encode: AuditRecord -> seq<Byte>,
    decode: seq<Byte> -> Option<AuditRecord>)

  datatype Error =
    | InvalidLabel | Incomplete | BadLength | TooComplex | Unparsable | InvalidRecord
    | TooManyRecords | NotContiguous | ChainBroken | HashMismatch | TooLarge

  // ---------------------------------------------------------- validation

  predicate ValidLabel(value: string) {
    0 < |value| <= 256 && forall c :: c in value ==> c != '\0' && c != '\r' && c != '\n'
  }

  predicate IsHexDigit(c: char) { '0' <= c <= '9' || 'a' <= c <= 'f' || 'A' <= c <= 'F' }

  predicate ValidHash(value: string) {
    && "sha256:" <= value
    && |value| == 7 + 64
    && forall c :: c in value[7..] ==> IsHexDigit(c)
  }

  predicate ValidRecord(r: AuditRecord) {
    && r.schema == 1 && r.sequence > 0 && r.eventId != 0
    && ValidLabel(r.action) && ValidLabel(r.outcome) && ValidLabel(r.runId)
    && ValidHash(r.hash) && (r.previous.Some? ==> ValidHash(r.previous.value))
  }

  function Canonical(r: AuditRecord): AuditRecord { r.(hash := "") }

  function RecordHash(env: Env, r: AuditRecord): string { env.digest(Canonical(r)) }

  // -------------------------------------------------------- the reference

  /** A file cut at its newlines; `tail` is what follows the last of them. */
  datatype Framed = Framed(lines: seq<seq<Byte>>, tail: seq<Byte>)

  function Join(lines: seq<seq<Byte>>): seq<Byte> {
    if lines == [] then [] else lines[0] + [NEWLINE] + Join(lines[1..])
  }

  predicate Frames(file: seq<Byte>, f: Framed) {
    && file == Join(f.lines) + f.tail
    && NEWLINE !in f.tail
    && forall k :: 0 <= k < |f.lines| ==> NEWLINE !in f.lines[k]
  }

  /** The first newline of the file, or its end. */
  function NewlineAt(file: seq<Byte>): (n: nat)
    ensures n <= |file| && (n < |file| ==> file[n] == NEWLINE) && NEWLINE !in file[..n]
  {
    if file == [] then 0
    else if file[0] == NEWLINE then 0
    else
      assert file[..1 + NewlineAt(file[1..])] == [file[0]] + file[1..][..NewlineAt(file[1..])];
      1 + NewlineAt(file[1..])
  }

  lemma {:induction false} FrameExists(file: seq<Byte>)
    ensures exists f :: Frames(file, f)
    decreases |file|
  {
    var n := NewlineAt(file);
    if n == |file| {
      assert Frames(file, Framed([], file)) by { assert file == [] + file; }
    } else {
      FrameExists(file[n + 1..]);
      var rest :| Frames(file[n + 1..], rest);
      var f := Framed([file[..n]] + rest.lines, rest.tail);
      assert f.lines[1..] == rest.lines;
      assert file == file[..n] + [NEWLINE] + (Join(rest.lines) + rest.tail);
      assert Frames(file, f);
    }
  }

  ghost function Frame(file: seq<Byte>): Framed {
    FrameExists(file);
    var f :| Frames(file, f);
    f
  }

  /** One line as a record, given how many records and which hash came before it. */
  type Reader = (seq<Byte>, nat, Option<string>) -> Result<AuditRecord, Error>

  function ReadLine(env: Env, line: seq<Byte>, count: nat, previous: Option<string>): Result<AuditRecord, Error> {
    if |line| > MAX_AUDIT_RECORD_BYTES + 1 then Err(Incomplete)      // the bounded read stops short of its newline
    else if line == [] || |line| > MAX_AUDIT_RECORD_BYTES then Err(BadLength)
    else if !JsonScan.Accepts(JsonScan.PAYLOAD_LIMITS, line) then Err(TooComplex)
    else if env.decode(line).None? then Err(Unparsable)
    else
      var r := env.decode(line).value;
      if !ValidRecord(r) then Err(InvalidRecord)
      else if count + 1 > MAX_AUDIT_RECORDS then Err(TooManyRecords)
      else if r.sequence != count + 1 then Err(NotContiguous)
      else if r.previous != previous then Err(ChainBroken)
      else if r.hash != RecordHash(env, r) then Err(HashMismatch)
      else Ok(r)
  }

  function LineReader(env: Env): Reader {
    (line: seq<Byte>, count: nat, previous: Option<string>) => ReadLine(env, line, count, previous)
  }

  /** The records of lines that read well from `count` records and `previous` on. */
  function Chain(read: Reader, lines: seq<seq<Byte>>, count: nat, previous: Option<string>)
    : Result<seq<AuditRecord>, Error>
  {
    if lines == [] then Ok([])
    else
      var r := read(lines[0], count, previous);
      if r.Err? then Err(r.error)
      else Prepend([r.value], Chain(read, lines[1..], count + 1, Some(r.value.hash)))
  }

  function Prepend(seen: seq<AuditRecord>, rest: Result<seq<AuditRecord>, Error>): Result<seq<AuditRecord>, Error> {
    if rest.Err? then rest else Ok(seen + rest.value)
  }

  ghost function Verified(env: Env, file: seq<Byte>): Result<seq<AuditRecord>, Error> {
    Judge(LineReader(env), Frame(file))
  }

  function Judge(read: Reader, f: Framed): Result<seq<AuditRecord>, Error> {
    Conclude(Chain(read, f.lines, 0, None), f.tail)
  }

  function Conclude(chain: Result<seq<AuditRecord>, Error>, tail: seq<Byte>): Result<seq<AuditRecord>, Error> {
    if chain.Ok? && tail != [] then Err(Incomplete) else chain
  }

  function LastHash(chain: seq<AuditRecord>, otherwise: Option<string>): Option<string> {
    if chain == [] then otherwise else Some(chain[|chain| - 1].hash)
  }

  // -------------------------------------------------------- verification

  datatype Match =
    | NoMatch
    | RequestMatch(action: string, outcome: string, requestId: string)
    | RunMatch(action: string, outcome: string, runId: string)

  predicate Matches(target: Match, r: AuditRecord) {
    match target
    case NoMatch => false
    case RequestMatch(action, outcome, id) =>
      r.action == action && r.outcome == outcome && r.details.Some? && r.details.value.requestId == Some(id)
    case RunMatch(action, outcome, id) => r.action == action && r.outcome == outcome && r.runId == id
  }

  datatype Scan = Scan(records: nat, last: Option<AuditRecord>, matched: bool)

  predicate Summarises(scan: Scan, chain: seq<AuditRecord>, target: Match) {
    && scan.records == |chain|
    && scan.last == (if chain == [] then None else Some(chain[|chain| - 1]))
    && (scan.matched <==> exists r :: r in chain && Matches(target, r))
  }

  lemma {:induction false} PrependTwice(a: seq<AuditRecord>, b: seq<AuditRecord>, rest: Result<seq<AuditRecord>, Error>)
    ensures Prepend(a, Prepend(b, rest)) == Prepend(a + b, rest) && Prepend([], rest) == rest
  {
    if rest.Ok? {
      assert a + (b + rest.value) == a + b + rest.value;
      assert [] + rest.value == rest.value;
    }
  }

  /** Lines read after others carry on from their last record. */
  lemma {:induction false} ChainContinues(
    read: Reader, lines: seq<seq<Byte>>, more: seq<seq<Byte>>, count: nat, previous: Option<string>)
    requires Chain(read, lines, count, previous).Ok?
    ensures var chain := Chain(read, lines, count, previous).value;
      Chain(read, lines + more, count, previous)
      == Prepend(chain, Chain(read, more, count + |chain|, LastHash(chain, previous)))
  {
    if lines == [] {
      assert lines + more == more;
      PrependTwice([], [], Chain(read, more, count, previous));
    } else {
      var r := read(lines[0], count, previous).value;
      assert (lines + more)[1..] == lines[1..] + more;
      ChainContinues(read, lines[1..], more, count + 1, Some(r.hash));
      var rest := Chain(read, lines[1..], count + 1, Some(r.hash)).value;
      PrependTwice([r], rest, Chain(read, more, count + 1 + |rest|, LastHash(rest, Some(r.hash))));
    }
  }

  lemma {:induction false} NewlineIsFirst(line: seq<Byte>, rest: seq<Byte>)
    requires NEWLINE !in line
    ensures NewlineAt(line + [NEWLINE] + rest) == |line|
  {
    var file := line + [NEWLINE] + rest;
    var n := NewlineAt(file);
    assert forall k :: 0 <= k < n ==> file[..n][k] == file[k];
    assert forall k :: 0 <= k < |line| ==> file[k] == line[k];
    assert file[|line|] == NEWLINE;
  }

  lemma {:induction false} FirstLine(file: seq<Byte>, f: Framed)
    requires Frames(file, f)
    ensures var n := NewlineAt(file);
      if f.lines == [] then n == |file|
      else n < |file| && file[..n] == f.lines[0] && Frames(file[n + 1..], Framed(f.lines[1..], f.tail))
  {
    if f.lines == [] {
      assert file == f.tail;
    } else {
      var line, rest := f.lines[0], Join(f.lines[1..]) + f.tail;
      assert file == line + [NEWLINE] + rest;
      NewlineIsFirst(line, rest);
      assert file[|line| + 1..] == rest;
    }
  }

  method VerifyLockedFileMatching(env: Env, file: seq<Byte>, target: Match) returns (result: Result<Scan, Error>)
    ensures match Verified(env, file)
      case Ok(chain) => result.Ok? && Summarises(result.value, chain, target)
      case Err(error) => result == Err(error)
  {
    result := ScanRecords(LineReader(env), file, target);
  }

  method ScanRecords(read: Reader, file: seq<Byte>, target: Match) returns (result: Result<Scan, Error>)
    ensures match Judge(read, Frame(file))
      case Ok(chain) => result.Ok? && Summarises(result.value, chain, target)
      case Err(error) => result == Err(error)
  {
    var rest, previousHash := file, None;
    var scan := Scan(0, None, false);
    ghost var f := Frame(file);
    ghost var whole := Chain(read, f.lines, 0, None);
    ghost var seen, lines := [], f.lines;
    PrependTwice([], [], whole);
    while rest != []
      invariant Summarises(scan, seen, target) && previousHash == LastHash(seen, None)
      invariant Frames(rest, Framed(lines, f.tail))
      invariant whole == Prepend(seen, Chain(read, lines, scan.records, previousHash))
      decreases |rest|
    {
      var n := NewlineAt(rest);
      FirstLine(rest, Framed(lines, f.tail));
      if n == |rest| {
        return Err(Incomplete);
      }
      var next := read(rest[..n], scan.records, previousHash);
      if next.Err? {
        return Err(next.error);
      }
      var record := next.value;
      PrependTwice(seen, [record], Chain(read, lines[1..], scan.records + 1, Some(record.hash)));
      seen, lines := seen + [record], lines[1..];
      scan := Scan(scan.records + 1, Some(record), scan.matched || Matches(target, record));
      previousHash := Some(record.hash);
      rest := rest[n + 1..];
    }
    assert lines == [] && f.tail == [];
    assert seen + [] == seen;
    return Ok(scan);
  }

  /** Search: true exactly when the whole chain verifies and holds a match. */
  method HasRecord(env: Env, file: Option<seq<Byte>>, target: Match) returns (result: Result<bool, Error>)
    ensures file.None? ==> result == Ok(false)
    ensures file.Some? && Verified(env, file.value).Err? ==> result == Err(Verified(env, file.value).error)
    ensures file.Some? && Verified(env, file.value).Ok? ==>
      result == Ok(exists r :: r in Verified(env, file.value).value && Matches(target, r))
  {
    if file.None? {
      return Ok(false);
    }
    var scan := VerifyLockedFileMatching(env, file.value, target);
    return if scan.Ok? then Ok(scan.value.matched) else Err(scan.error);
  }

  method HasRequestRecord(env: Env, file: Option<seq<Byte>>, action: string, outcome: string, requestId: string)
    returns (result: Result<bool, Error>)
    ensures result == Ok(true) <==> (
      && ValidLabel(action) && ValidLabel(outcome) && ValidLabel(requestId) && file.Some?
      && Verified(env, file.value).Ok?
      && exists r :: r in Verified(env, file.value).value &&
           r.action == action && r.outcome == outcome && r.details.Some? && r.details.value.requestId == Some(requestId))
    ensures result.Err? <==> (
      || !ValidLabel(action) || !ValidLabel(outcome) || !ValidLabel(requestId)
      || (file.Some? && Verified(env, file.value).Err?))
  {
    if !ValidLabel(action) || !ValidLabel(outcome) || !ValidLabel(requestId) {
      return Err(InvalidLabel);
    }
    result := HasRecord(env, file, RequestMatch(action, outcome, requestId));
  }

  method HasRunRecord(env: Env, file: Option<seq<Byte>>, action: string, outcome: string, runId: string)
    returns (result: Result<bool, Error>)
    ensures result == Ok(true) <==> (
      && ValidLabel(action) && ValidLabel(outcome) && ValidLabel(runId) && file.Some?
      && Verified(env, file.value).Ok?
      && exists r :: r in Verified(env, file.value).value &&
           r.action == action && r.outcome == outcome && r.runId == runId)
    ensures result.Err? <==> (
      || !ValidLabel(action) || !ValidLabel(outcome) || !ValidLabel(runId)
      || (file.Some? && Verified(env, file.value).Err?))
  {
    if !ValidLabel(action) || !ValidLabel(outcome) || !ValidLabel(runId) {
      return Err(InvalidLabel);
    }
    result := HasRecord(env, file, RunMatch(action, outcome, runId));
  }

  // --------------------------------------------------- what verifying means

  /** Record `k` of a log: its number, its link to the record before, its own hash. */
  predicate Linked(env: Env, chain: seq<AuditRecord>, k: nat)
    requires k < |chain|
  {
    && ValidRecord(chain[k])
    && chain[k].sequence == k + 1 <= MAX_AUDIT_RECORDS
    && chain[k].previous == LastHash(chain[..k], None)
    && chain[k].hash == RecordHash(env, chain[k])
  }

  lemma {:induction false} ChainIsRead(
    read: Reader, lines: seq<seq<Byte>>, count: nat, previous: Option<string>, k: nat)
    requires Chain(read, lines, count, previous).Ok?
    requires k < |Chain(read, lines, count, previous).value|
    ensures k < |lines|
    ensures var chain := Chain(read, lines, count, previous).value;
      read(lines[k], count + k, LastHash(chain[..k], previous)) == Ok(chain[k])
    decreases k
  {
    var chain := Chain(read, lines, count, previous).value;
    var r := read(lines[0], count, previous).value;
    if k > 0 {
      ChainIsRead(read, lines[1..], count + 1, Some(r.hash), k - 1);
      assert chain[..k] == [r] + Chain(read, lines[1..], count + 1, Some(r.hash)).value[..k - 1];
    }
  }

  lemma {:induction false} VerifiedIsLinked(env: Env, file: seq<Byte>)
    requires Verified(env, file).Ok?
    ensures AllLinked(env, Verified(env, file).value) && |Verified(env, file).value| <= MAX_AUDIT_RECORDS
  {
    var chain := Verified(env, file).value;
    forall k: nat | k < |chain| ensures Linked(env, chain, k) {
      ChainIsRead(LineReader(env), Frame(file).lines, 0, None, k);
      assert ReadLine(env, Frame(file).lines[k], k, LastHash(chain[..k], None)) == Ok(chain[k]);
    }
    if chain != [] {
      assert Linked(env, chain, |chain| - 1);
    }
  }

  // ------------------------------------------------------ tamper evidence

  /** Two different canonical records of the two chains with one digest. */
  predicate Collision(env: Env, a: seq<AuditRecord>, b: seq<AuditRecord>) {
    exists x, y :: x in a && y in b && Canonical(x) != Canonical(y) && RecordHash(env, x) == RecordHash(env, y)
  }

  ghost predicate AllLinked(env: Env, chain: seq<AuditRecord>) {
    forall k: nat :: k < |chain| ==> Linked(env, chain, k)
  }

  /** Records with one hash have one history: same place, same records before them. */
  lemma {:induction false} OneHashOneHistory(env: Env, a: seq<AuditRecord>, i: nat, b: seq<AuditRecord>, j: nat)
    requires AllLinked(env, a) && AllLinked(env, b) && i < |a| && j < |b|
    requires a[i].hash == b[j].hash
    ensures (i == j && a[..i + 1] == b[..j + 1]) || Collision(env, a, b)
    decreases i
  {
    assert Linked(env, a, i) && Linked(env, b, j);
    if !Collision(env, a, b) {
      assert a[i] in a && b[j] in b;
      assert Canonical(a[i]) == Canonical(b[j]);
      assert a[i] == Canonical(a[i]).(hash := a[i].hash) == b[j];
      assert i == j;
      assert a[..i + 1] == a[..i] + [a[i]] && b[..i + 1] == b[..i] + [b[i]];
      if i > 0 {
        assert a[..i][i - 1] == a[i - 1] && b[..i][i - 1] == b[i - 1];
        assert a[i - 1].hash == b[i - 1].hash;
        OneHashOneHistory(env, a, i - 1, b, i - 1);
      }
    }
  }

  /** The last hash of a verified log fixes every record of it, unless the hash collides. */
  lemma {:induction false} LastHashFixesLog(env: Env, file: seq<Byte>, other: seq<Byte>)
    requires Verified(env, file).Ok? && Verified(env, other).Ok?
    requires LastHash(Verified(env, file).value, None) == LastHash(Verified(env, other).value, None)
    ensures Verified(env, file).value == Verified(env, other).value
      || Collision(env, Verified(env, file).value, Verified(env, other).value)
  {
    var a, b := Verified(env, file).value, Verified(env, other).value;
    VerifiedIsLinked(env, file);
    VerifiedIsLinked(env, other);
    if a != [] {
      OneHashOneHistory(env, a, |a| - 1, b, |b| - 1);
      assert a[..|a|] == a && b[..|b|] == b;
    }
  }

  // --------------------------------------------------------------- growth

  lemma {:induction false} FrameIsUnique(file: seq<Byte>, f: Framed, g: Framed)
    requires Frames(file, f) && Frames(file, g)
    ensures f == g
    decreases |f.lines|
  {
    FirstLine(file, f);
    FirstLine(file, g);
    if f.lines != [] {
      var n := NewlineAt(file);
      FrameIsUnique(file[n + 1..], Framed(f.lines[1..], f.tail), Framed(g.lines[1..], g.tail));
      assert f.lines == [f.lines[0]] + f.lines[1..] && g.lines == [g.lines[0]] + g.lines[1..];
    } else {
      assert f == Framed([], file) == g;
    }
  }

  lemma {:induction false} JoinConcat(a: seq<seq<Byte>>, b: seq<seq<Byte>>)
    ensures Join(a + b) == Join(a) + Join(b)
  {
    if a == [] {
      assert a + b == b;
    } else {
      assert (a + b)[1..] == a[1..] + b;
      JoinConcat(a[1..], b);
    }
  }

  /** Bytes after a last newline are framed on their own. */
  lemma {:induction false} FrameContinues(file: seq<Byte>, f: Framed, more: seq<Byte>, g: Framed)
    requires Frames(file, f) && f.tail == [] && Frames(more, g)
    ensures Frame(file + more) == Framed(f.lines + g.lines, g.tail)
  {
    JoinConcat(f.lines, g.lines);
    FrameIsUnique(file + more, Frame(file + more), Framed(f.lines + g.lines, g.tail));
  }

  lemma {:induction false} JudgeContinues(read: Reader, f: Framed, g: Framed)
    requires Judge(read, f).Ok?
    ensures var chain := Judge(read, f).value;
      Judge(read, Framed(f.lines + g.lines, g.tail))
      == Conclude(Prepend(chain, Chain(read, g.lines, |chain|, LastHash(chain, None))), g.tail)
  {
    ChainContinues(read, f.lines, g.lines, 0, None);
  }

  lemma {:induction false} VerifiedContinues(env: Env, file: seq<Byte>, more: seq<Byte>, g: Framed)
    requires Verified(env, file).Ok? && Frames(more, g)
    ensures var chain := Verified(env, file).value;
      Verified(env, file + more)
      == Conclude(Prepend(chain, Chain(LineReader(env), g.lines, |chain|, LastHash(chain, None))), g.tail)
  {
    var read, f := LineReader(env), Frame(file);
    assert Judge(read, f).Ok? && f.tail == [];
    FrameContinues(file, f, more, g);
    JudgeContinues(read, f, g);
  }

  /** A line of its own that `append` would write after `chain`. */
  predicate Appendable(env: Env, chain: seq<AuditRecord>, r: AuditRecord) {
    && ValidRecord(r)
    && r.sequence == |chain| + 1 && r.previous == LastHash(chain, None) && r.hash == RecordHash(env, r)
    && JsonScan.Accepts(JsonScan.PAYLOAD_LIMITS, env.encode(r))
    && |env.encode(r)| <= MAX_AUDIT_RECORD_BYTES
  }

  /** JSON on one line that reads back as what was written. */
  predicate ReadsBack(env: Env, r: AuditRecord) {
    env.encode(r) != [] && NEWLINE !in env.encode(r) && env.decode(env.encode(r)) == Some(r)
  }

  /**
   * An appended record keeps the log verifiable exactly while the log is below the
   * record limit, which `append` itself does not look at.
   */
  lemma {:induction false} AppendVerifiesBelowLimit(env: Env, file: seq<Byte>, r: AuditRecord)
    requires Verified(env, file).Ok? && Appendable(env, Verified(env, file).value, r) && ReadsBack(env, r)
    ensures var chain := Verified(env, file).value;
      Verified(env, file + env.encode(r) + [NEWLINE])
      == if |chain| < MAX_AUDIT_RECORDS then Ok(chain + [r]) else Err(TooManyRecords)
  {
    var chain, lines := Verified(env, file).value, [env.encode(r)];
    assert Frames(env.encode(r) + [NEWLINE], Framed(lines, [])) by { assert lines[1..] == []; }
    assert file + env.encode(r) + [NEWLINE] == file + (env.encode(r) + [NEWLINE]);
    VerifiedContinues(env, file, env.encode(r) + [NEWLINE], Framed(lines, []));
    OneLine(LineReader(env), env.encode(r), |chain|, LastHash(chain, None));
    LineReadsBack(env, chain, r);
  }

  lemma {:induction false} OneLine(read: Reader, line: seq<Byte>, count: nat, previous: Option<string>)
    ensures var r := read(line, count, previous);
      Chain(read, [line], count, previous) == if r.Ok? then Ok([r.value]) else Err(r.error)
  {
    var lines, r := [line], read(line, count, previous);
    assert lines[1..] == [];
    if r.Ok? { assert [r.value] + [] == [r.value]; }
  }

  lemma {:induction false} LineReadsBack(env: Env, chain: seq<AuditRecord>, r: AuditRecord)
    requires Appendable(env, chain, r) && ReadsBack(env, r)
    ensures LineReader(env)(env.encode(r), |chain|, LastHash(chain, None))
      == if |chain| < MAX_AUDIT_RECORDS then Ok(r) else Err(TooManyRecords)
  {
    assert ReadLine(env, env.encode(r), |chain|, LastHash(chain, None))
      == if |chain| < MAX_AUDIT_RECORDS then Ok(r) else Err(TooManyRecords);
  }

  /** A write cut short is never taken for a shorter or a longer log. */
  lemma {:induction false} TornAppendIsRejected(env: Env, file: seq<Byte>, torn: seq<Byte>)
    requires Verified(env, file).Ok? && torn != [] && NEWLINE !in torn
    ensures Verified(env, file + torn) == Err(Incomplete)
  {
    assert Frames(torn, Framed([], torn));
    VerifiedContinues(env, file, torn, Framed([], torn));
  }

  // --------------------------------------------------------------- append

  /** Nothing was written, or writing the line failed part way. */
  datatype AppendError = Refused(error: Error) | WriteFailed

  /** A failed write left the first `k` bytes of the record's line behind. */
  predicate CutShort(env: Env, r: AuditRecord, k: nat, before: seq<Byte>, after: seq<Byte>) {
    k <= |env.encode(r)| + 1 && after == before + (env.encode(r) + [NEWLINE])[..k]
  }

  /**
   * What verification says after a failed append: nothing happened, or the log is
   * incomplete, or all of the line is there and the record counts as appended.
   */
  lemma {:induction false} FailedAppendVerifies(env: Env, before: seq<Byte>, r: AuditRecord, k: nat, after: seq<Byte>)
    requires Verified(env, before).Ok? && Appendable(env, Verified(env, before).value, r) && ReadsBack(env, r)
    requires CutShort(env, r, k, before, after)
    ensures var chain := Verified(env, before).value;
      Verified(env, after) ==
        if k == 0 then Ok(chain)
        else if k <= |env.encode(r)| then Err(Incomplete)
        else if |chain| < MAX_AUDIT_RECORDS then Ok(chain + [r])
        else Err(TooManyRecords)
  {
    var line := env.encode(r) + [NEWLINE];
    if k == 0 {
      assert after == before;
    } else if k <= |env.encode(r)| {
      assert line[..k] == env.encode(r)[..k];
      TornAppendIsRejected(env, before, line[..k]);
    } else {
      assert line[..k] == line;
      assert after == before + env.encode(r) + [NEWLINE];
      AppendVerifiesBelowLimit(env, before, r);
    }
  }

  /** What a caller asks to have recorded, with the clock, a new event ID and the process. */
  datatype Entry = Entry(action: string, outcome: string, runId: string, details: Option<Details>,
                         eventId: nat, wallTime: int, uid: nat, pid: nat)

  predicate Records(r: AuditRecord, e: Entry) {
    && r.action == e.action && r.outcome == e.outcome && r.runId == e.runId && r.details == e.details
    && r.eventId == e.eventId && r.wallTime == e.wallTime && r.uid == e.uid && r.pid == e.pid
  }

  method Compose(env: Env, last: Option<AuditRecord>, e: Entry, ghost chain: seq<AuditRecord>)
    returns (result: Result<AuditRecord, Error>)
    requires chain == [] ==> last == None
    requires chain != [] ==> last == Some(chain[|chain| - 1]) && Linked(env, chain, |chain| - 1)
    ensures result.Ok? ==> Appendable(env, chain, result.value) && Records(result.value, e)
    ensures result.Err? ==> result.error in {InvalidRecord, TooComplex, TooLarge}
  {
    var sequence := if last.Some? then last.value.sequence + 1 else 1;
    var previous := if last.Some? then Some(last.value.hash) else None;
    var body := AuditRecord(
      1, sequence, e.eventId, e.wallTime, e.uid, e.pid, e.action, e.outcome, e.runId, e.details, previous, "");
    var record := body.(hash := RecordHash(env, body));
    assert Canonical(record) == body == Canonical(body);
    if !ValidRecord(record) {
      return Err(InvalidRecord);
    }
    if !JsonScan.Accepts(JsonScan.PAYLOAD_LIMITS, env.encode(record)) {
      return Err(TooComplex);
    }
    if |env.encode(record)| > MAX_AUDIT_RECORD_BYTES {
      return Err(TooLarge);
    }
    return Ok(record);
  }

  class AuditLog {
    var file: Option<seq<Byte>>

    function Contents(): seq<Byte>
      reads this
    {
      if file.None? then [] else file.value
    }

    /** Writes a line; a failing write may leave any part of it behind. */
    method WriteAll(env: Env, record: AuditRecord) returns (ok: bool)
      modifies this
      ensures ok ==> Contents() == old(Contents()) + env.encode(record) + [NEWLINE]
      ensures !ok ==> exists k: nat :: CutShort(env, record, k, old(Contents()), Contents())
    {
      var line, before := env.encode(record) + [NEWLINE], Contents();
      ok := *;
      if ok {
        file := Some(before + env.encode(record) + [NEWLINE]);
      } else {
        var k: nat :| k <= |line|;
        file := Some(before + line[..k]);
        assert CutShort(env, record, k, before, Contents());
      }
    }

    /** One append under the exclusive lock. */
    method Append(env: Env, e: Entry) returns (result: Result<AuditRecord, AppendError>)
      modifies this
      ensures result.Ok? ==>
        && Verified(env, old(Contents())).Ok?
        && Appendable(env, Verified(env, old(Contents())).value, result.value) && Records(result.value, e)
        && Contents() == old(Contents()) + env.encode(result.value) + [NEWLINE]
      ensures result.Err? && result.error.Refused? ==> Contents() == old(Contents())
      ensures result == Err(WriteFailed) ==>
        && Verified(env, old(Contents())).Ok?
        && exists r, k: nat ::
             && Appendable(env, Verified(env, old(Contents())).value, r) && Records(r, e)
             && CutShort(env, r, k, old(Contents()), Contents())
      ensures !ValidLabel(e.action) || !ValidLabel(e.outcome) || !ValidLabel(e.runId) || Verified(env, old(Contents())).Err? ==>
        result.Err?
    {
      if !ValidLabel(e.action) || !ValidLabel(e.outcome) || !ValidLabel(e.runId) {
        return Err(Refused(InvalidLabel));
      }
      if file.None? {
        file := Some([]);
      }
      var scan := VerifyLockedFileMatching(env, file.value, NoMatch);
      if scan.Err? {
        return Err(Refused(scan.error));
      }
      VerifiedIsLinked(env, file.value);
      var record := Compose(env, scan.value.last, e, Verified(env, file.value).value);
      if record.Err? {
        return Err(Refused(record.error));
      }
      var written := WriteAll(env, record.value);
      return if written then Ok(record.value) else Err(WriteFailed);
    }
  }
}
