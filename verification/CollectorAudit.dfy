/**
Where the collector meets the audit file: the protocol's sequence of entries read
from the bytes, and `audit_request_outcome` (`src/control.rs`) on the real log.
*/
module CollectorAudit {
  import opened Options
  import opened Bytes
  import A = Audit
  import P = CollectorProtocol

  const ACTION: string := "collector_request"

  function StatusText(s: P.Status): string {
    match s
    case Acked => "acked"
    case Done => "done"
    case Rejected => "rejected"
  }

  /** How request IDs are printed. */
  ghost predicate Naming(name: nat -> string) {
    forall a: nat, b: nat :: name(a) == name(b) ==> a == b
  }

  function Target(name: nat -> string, id: nat, status: P.Status): A.Match {
    A.RequestMatch(ACTION, StatusText(status), name(id))
  }

  /** The record in the file is the one the protocol's entry stands for. */
  predicate StandsFor(name: nat -> string, r: A.AuditRecord, entry: P.AuditEntry) {
    match entry.action
    case CollectorRequest => A.Matches(Target(name, entry.id, entry.status), r)
    case OtherAction => r.action != ACTION
  }

  ghost predicate Spells(name: nat -> string, chain: seq<A.AuditRecord>, audit: seq<P.AuditEntry>) {
    |chain| == |audit| && forall k :: 0 <= k < |chain| ==> StandsFor(name, chain[k], audit[k])
  }

  lemma MatchIsItsEntry(name: nat -> string, r: A.AuditRecord, entry: P.AuditEntry, id: nat, status: P.Status)
    requires Naming(name) && StandsFor(name, r, entry)
    ensures A.Matches(Target(name, id, status), r) <==> entry == P.AuditEntry(P.CollectorRequest, id, status)
  {
    assert |StatusText(P.Acked)| == 5 && |StatusText(P.Done)| == 4 && |StatusText(P.Rejected)| == 8;
  }

  /** Searching the file and looking into the protocol's log give one answer. */
  lemma SearchAgrees(name: nat -> string, chain: seq<A.AuditRecord>, audit: seq<P.AuditEntry>, id: nat, status: P.Status)
    requires Naming(name) && Spells(name, chain, audit)
    ensures P.HasRequestRecord(audit, id, status) <==> exists r :: r in chain && A.Matches(Target(name, id, status), r)
  {
    forall k | 0 <= k < |chain|
      ensures A.Matches(Target(name, id, status), chain[k]) <==> audit[k] == P.AuditEntry(P.CollectorRequest, id, status)
    {
      MatchIsItsEntry(name, chain[k], audit[k], id, status);
    }
    if P.HasRequestRecord(audit, id, status) {
      var k :| 0 <= k < |audit| && audit[k] == P.AuditEntry(P.CollectorRequest, id, status);
      assert chain[k] in chain;
    }
  }

  /** After any history of the protocol, the file holds at most one record of a request and status. */
  lemma OneRecordInFile(
    name: nat -> string, init: P.System, steps: seq<P.Step>, chain: seq<A.AuditRecord>,
    id: nat, status: P.Status, i: nat, j: nat)
    requires P.Initial(init) && P.Legal(init, steps) && Naming(name)
    requires Spells(name, chain, P.After(init, steps).audit) && i < |chain| && j < |chain|
    requires A.Matches(Target(name, id, status), chain[i]) && A.Matches(Target(name, id, status), chain[j])
    ensures i == j
  {
    var audit := P.After(init, steps).audit;
    P.EffectsAgree(init, steps);
    MatchIsItsEntry(name, chain[i], audit[i], id, status);
    MatchIsItsEntry(name, chain[j], audit[j], id, status);
  }

  /** What `audit_request_outcome` did: the file it left spells the protocol's next audit log. */
  ghost predicate Recorded(
    env: A.Env, name: nat -> string, before: seq<Byte>, after: seq<Byte>, audit: seq<P.AuditEntry>, id: nat, status: P.Status)
    requires A.Verified(env, before).Ok?
  {
    var chain := A.Verified(env, before).value;
    if P.HasRequestRecord(audit, id, status) then after == before
    else exists r ::
      && A.Appendable(env, chain, r) && after == before + env.encode(r) + [NEWLINE]
      && Spells(name, chain + [r], audit + [P.AuditEntry(P.CollectorRequest, id, status)])
  }

  /** `audit_request_outcome`: search the verified file, append only when nothing matches. */
  method AuditRequestOutcome(
    env: A.Env, log: A.AuditLog, ghost name: nat -> string, ghost audit: seq<P.AuditEntry>,
    ghost id: nat, ghost status: P.Status, requestId: string, e: A.Entry) returns (result: Option<A.AppendError>)
    requires Naming(name) && requestId == name(id)
    requires e.action == ACTION && e.outcome == StatusText(status)
    requires e.details.Some? && e.details.value.requestId == Some(requestId)
    requires A.Verified(env, log.Contents()).Ok? ==> Spells(name, A.Verified(env, log.Contents()).value, audit)
    requires log.file.None? ==> audit == []
    modifies log
    ensures result.None? ==>
      A.Verified(env, old(log.Contents())).Ok? && Recorded(env, name, old(log.Contents()), log.Contents(), audit, id, status)
    ensures result.Some? && result.value.Refused? ==> log.Contents() == old(log.Contents())
    ensures result.Some? && result.value.WriteFailed? ==> !P.HasRequestRecord(audit, id, status)
  {
    var found := A.HasRequestRecord(env, log.file, e.action, e.outcome, requestId);
    if found.Err? {
      return Some(A.Refused(found.error));
    }
    if log.file.Some? {
      SearchAgrees(name, A.Verified(env, log.Contents()).value, audit, id, status);
    }
    if found.value {
      return None;
    }
    var appended := log.Append(env, e);
    if appended.Err? {
      return Some(appended.error);
    }
    return None;
  }
}
