/**
The record limit of the audit log is reached: for every number of records up to
it there is a verified log that long, so `Audit.AppendVerifiesBelowLimit` has an
input on its failing side. Entries of one kind are appended again and again;
`SomeEnvSuits` gives a coding for which that works.
*/
module AuditLimits {
  import opened Options
  import opened Bytes
  import opened Audit
  import JsonScan

  /** A record of the entry as a log of at most the limit and one more could hold it. */
  ghost predicate Repeated(env: Env, e: Entry, r: AuditRecord) {
    && Records(r, e) && r.schema == 1 && 1 <= r.sequence <= MAX_AUDIT_RECORDS + 1
    && r.hash == RecordHash(env, r)
    && (r.previous.None? <==> r.sequence == 1)
    && (r.previous.Some? ==> exists body :: r.previous.value == env.digest(body))
  }

  /** The entry is acceptable, digests look like hashes, and its records can be written and read back. */
  ghost predicate Suits(env: Env, e: Entry) {
    && ValidLabel(e.action) && ValidLabel(e.outcome) && ValidLabel(e.runId) && e.eventId != 0
    && (forall body :: ValidHash(env.digest(body)))
    && forall r :: Repeated(env, e, r) ==>
         && ReadsBack(env, r) && |env.encode(r)| <= MAX_AUDIT_RECORD_BYTES
         && JsonScan.Accepts(JsonScan.PAYLOAD_LIMITS, env.encode(r))
  }

  /** The record `append` composes for the entry. */
  function NextRecord(env: Env, e: Entry, chain: seq<AuditRecord>): AuditRecord {
    var body := AuditRecord(
      1, |chain| + 1, e.eventId, e.wallTime, e.uid, e.pid, e.action, e.outcome, e.runId, e.details,
      LastHash(chain, None), "");
    body.(hash := RecordHash(env, body))
  }

  lemma NextIsAppendable(env: Env, e: Entry, chain: seq<AuditRecord>)
    requires Suits(env, e) && AllLinked(env, chain) && |chain| <= MAX_AUDIT_RECORDS
    ensures Appendable(env, chain, NextRecord(env, e, chain)) && ReadsBack(env, NextRecord(env, e, chain))
  {
    var r := NextRecord(env, e, chain);
    assert Canonical(r) == r.(hash := "");
    if chain != [] {
      assert Linked(env, chain, |chain| - 1);
      assert r.previous.value == env.digest(Canonical(chain[|chain| - 1]));
    }
    assert Repeated(env, e, r);
  }

  lemma EmptyVerifies(env: Env)
    ensures Verified(env, []) == Ok([])
  {
    assert Frames([], Framed([], []));
    FrameIsUnique([], Frame([]), Framed([], []));
  }

  /** There is a verified log of every length up to the limit. */
  lemma {:induction false} LogOfLength(env: Env, e: Entry, n: nat) returns (file: seq<Byte>)
    requires Suits(env, e) && n <= MAX_AUDIT_RECORDS
    ensures Verified(env, file).Ok? && |Verified(env, file).value| == n
  {
    if n == 0 {
      EmptyVerifies(env);
      file := [];
    } else {
      var shorter := LogOfLength(env, e, n - 1);
      var chain := Verified(env, shorter).value;
      var r := NextRecord(env, e, chain);
      VerifiedIsLinked(env, shorter);
      NextIsAppendable(env, e, chain);
      AppendVerifiesBelowLimit(env, shorter, r);
      file := shorter + env.encode(r) + [NEWLINE];
    }
  }

  /** At the limit `append` still writes, and the log it leaves no longer verifies. */
  lemma FullLogIsBroken(env: Env, e: Entry) returns (file: seq<Byte>, r: AuditRecord)
    requires Suits(env, e)
    ensures Verified(env, file).Ok? && |Verified(env, file).value| == MAX_AUDIT_RECORDS
    ensures Appendable(env, Verified(env, file).value, r) && Records(r, e)
    ensures Verified(env, file + env.encode(r) + [NEWLINE]) == Err(TooManyRecords)
  {
    file := LogOfLength(env, e, MAX_AUDIT_RECORDS);
    r := NextRecord(env, e, Verified(env, file).value);
    VerifiedIsLinked(env, file);
    NextIsAppendable(env, e, Verified(env, file).value);
    AppendVerifiesBelowLimit(env, file, r);
  }

  // ------------------------------------------------- a coding that suits

  function Power(k: nat): nat { if k == 0 then 1 else 16 * Power(k - 1) }

  /** `k` digits to base sixteen, as the letters from 'A' on. */
  function Letters(n: nat, k: nat): seq<Byte> {
    if k == 0 then [] else Letters(n / 16, k - 1) + [(65 + n % 16) as Byte]
  }

  function Number(letters: seq<Byte>): int {
    if letters == [] then 0 else 16 * Number(letters[..|letters| - 1]) + (letters[|letters| - 1] as int - 65)
  }

  lemma {:induction false} LettersReadBack(n: nat, k: nat)
    requires n < Power(k)
    ensures |Letters(n, k)| == k && Number(Letters(n, k)) == n
    ensures forall b :: b in Letters(n, k) ==> 65 <= b as int < 81
  {
    if k > 0 {
      LettersReadBack(n / 16, k - 1);
      assert Letters(n, k)[..k - 1] == Letters(n / 16, k - 1);
    }
  }

  function Zeros(n: nat): (zeros: string)
    ensures |zeros| == n && forall c :: c in zeros ==> c == '0'
  {
    if n == 0 then "" else Zeros(n - 1) + "0"
  }

  lemma SampleHash()
    ensures ValidHash("sha256:" + Zeros(64))
  {
    assert ("sha256:" + Zeros(64))[7..] == Zeros(64);
  }

  /** The record with this number in a log of one entry under a constant digest. */
  function Numbered(e: Entry, hash: string, n: int): AuditRecord {
    AuditRecord(1, if n < 0 then 0 else n, e.eventId, e.wallTime, e.uid, e.pid, e.action, e.outcome, e.runId, e.details,
                if n == 1 then None else Some(hash), hash)
  }

  function SampleEnv(e: Entry, hash: string): Env {
    Env((r: AuditRecord) => hash,
        (r: AuditRecord) => Letters(r.sequence, 6),
        (line: seq<Byte>) => Some(Numbered(e, hash, Number(line))))
  }

  lemma LettersAreAccepted(text: seq<Byte>)
    requires forall b :: b in text ==> 65 <= b as int < 81
    ensures JsonScan.Accepts(JsonScan.PAYLOAD_LIMITS, text) && NEWLINE !in text
  {
    assert forall b :: b in text ==> JsonScan.Neutral(b);
    JsonScan.NeutralIsFree(text);
  }

  lemma SampleReadsBack(e: Entry, hash: string, r: AuditRecord)
    requires Repeated(SampleEnv(e, hash), e, r)
    ensures var env := SampleEnv(e, hash);
      && ReadsBack(env, r) && |env.encode(r)| <= MAX_AUDIT_RECORD_BYTES
      && JsonScan.Accepts(JsonScan.PAYLOAD_LIMITS, env.encode(r))
  {
    assert Power(6) == 16 * 16 * 16 * 16 * 16 * 16;
    LettersReadBack(r.sequence, 6);
    LettersAreAccepted(Letters(r.sequence, 6));
    assert r == Numbered(e, hash, r.sequence);
  }

  /** Every acceptable entry has a coding that suits it. */
  lemma SomeEnvSuits(e: Entry)
    requires ValidLabel(e.action) && ValidLabel(e.outcome) && ValidLabel(e.runId) && e.eventId != 0
    ensures exists env :: Suits(env, e)
  {
    var hash := "sha256:" + Zeros(64);
    var env := SampleEnv(e, hash);
    SampleHash();
    forall r | Repeated(env, e, r)
      ensures ReadsBack(env, r) && |env.encode(r)| <= MAX_AUDIT_RECORD_BYTES
      ensures JsonScan.Accepts(JsonScan.PAYLOAD_LIMITS, env.encode(r))
    {
      SampleReadsBack(e, hash, r);
    }
    assert Suits(env, e);
  }
}
