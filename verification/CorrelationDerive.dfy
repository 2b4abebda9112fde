/**
Matching anchors to transports (`derive` in `src/correlation.rs`): anchors are served in
log order, each claims the one transport or the one retry chain it can stand for, and
what is left over is reported. The laws below hold of whole runs.
*/
module CorrelationDerive {
  import opened Basics
  import opened Options
  import opened CorrelationTypes
  import opened CorrelationCandidates
  import CorrelationIngest
  import Summary

  // --------------------------------------------------------- retry chains

  /** Whole milliseconds, dropping the rest toward zero. */
  function Milliseconds(nanos: int): int {
    if nanos >= 0 then nanos / NANOS_PER_MS else -((-nanos) / NANOS_PER_MS)
  }

  predicate ExactOrInWindow(a: Anchor, t: Transport) {
    || NamesExactly(a, t)
    || var delta := Milliseconds(t.time - a.time);
       if a.kind.PreRequest? then -PRE_WINDOW_BEFORE_MS <= delta <= PRE_WINDOW_AFTER_MS
       else -COMPLETION_WINDOW_AFTER_MS <= -delta <= COMPLETION_WINDOW_BEFORE_MS
  }

  predicate IsRetriableFailure(t: Transport) {
    || (t.status.Some? && (t.status.value in {408, 409, 425, 429} || 500 <= t.status.value <= 599))
    || (t.terminal.Some? && !t.terminal.value.Complete?)
  }

  predicate RetryChainIsUnique(a: Anchor, chain: seq<Transport>, anchors: seq<Anchor>) {
    && a.kind.PreRequest? && |chain| >= 2 && chain[0].fingerprint.Some?
    && (forall t :: t in chain ==>
          && t.fingerprint == chain[0].fingerprint
          && !(t.inference == chain[0].inference && t.attempt == chain[0].attempt && t.sequence != chain[0].sequence))
    && (forall k :: 0 <= k < |chain| - 1 ==> IsRetriableFailure(chain[k]))
    && (forall other :: other in anchors && other.sequence != a.sequence && other.kind.PreRequest? ==>
          forall t :: t in chain ==> !(ModelsCompatible(other.model, t.model) && ExactOrInWindow(other, t)))
  }

  // -------------------------------------------------------------- outcomes

  /** The events that a run appends. */
  datatype Outcome =
    | Resolved(anchor: Anchor, inference: string, exact: bool, corroborates: bool)
    | Chain(anchor: Anchor, canonical: string, members: seq<string>)
    | Unresolved(anchor: Anchor, total: nat, listed: seq<string>, truncated: bool)
    | SessionScope(transport: Transport, scope: Ids)
    | Unmatched(transport: Transport)

  function Claims(o: Outcome): set<string> {
    match o
    case Resolved(_, inference, _, _) => {inference}
    case Chain(_, _, members) => set m | m in members
    case _ => {}
  }

  function AllClaims(outcomes: seq<Outcome>): set<string> {
    if outcomes == [] then {} else AllClaims(outcomes[..|outcomes| - 1]) + Claims(outcomes[|outcomes| - 1])
  }

  lemma {:induction false} ClaimIsSomeones(outcomes: seq<Outcome>, x: string)
    ensures x in AllClaims(outcomes) <==> exists k :: 0 <= k < |outcomes| && x in Claims(outcomes[k])
  {
    if outcomes != [] {
      var n := |outcomes| - 1;
      ClaimIsSomeones(outcomes[..n], x);
      if x in AllClaims(outcomes[..n]) {
        var k :| 0 <= k < n && x in Claims(outcomes[..n][k]);
        assert x in Claims(outcomes[k]);
      }
      if exists k :: 0 <= k < |outcomes| && x in Claims(outcomes[k]) {
        var k :| 0 <= k < |outcomes| && x in Claims(outcomes[k]);
        if k < n { assert x in Claims(outcomes[..n][k]); }
      }
    }
  }

  lemma {:induction false} AllClaimsGrow(outcomes: seq<Outcome>, o: Outcome)
    ensures AllClaims(outcomes + [o]) == AllClaims(outcomes) + Claims(o)
  {
    assert (outcomes + [o])[..|outcomes|] == outcomes;
  }

  // ------------------------------------------------- what a run remembers

  function Remembered(scopes: map<string, seq<Ids>>, a: Anchor, inference: string): map<string, seq<Ids>> {
    if a.kind.PreRequest? then
      scopes[inference := (if inference in scopes then scopes[inference] else []) + [a.ids]]
    else scopes
  }

  function RememberedAll(scopes: map<string, seq<Ids>>, a: Anchor, members: seq<string>): map<string, seq<Ids>> {
    if members == [] then scopes
    else Remembered(RememberedAll(scopes, a, members[..|members| - 1]), a, members[|members| - 1])
  }

  function RememberedOf(scopes: map<string, seq<Ids>>, o: Outcome): map<string, seq<Ids>> {
    match o
    case Resolved(a, inference, _, _) => Remembered(scopes, a, inference)
    case Chain(a, _, members) => RememberedAll(scopes, a, members)
    case _ => scopes
  }

  function ScopesAfter(outcomes: seq<Outcome>): map<string, seq<Ids>> {
    if outcomes == [] then map[]
    else RememberedOf(ScopesAfter(outcomes[..|outcomes| - 1]), outcomes[|outcomes| - 1])
  }

  /** The question the next anchor asks. */
  function QueryAfter(anchors: seq<Anchor>, transports: seq<Transport>, before: seq<Outcome>): Query
    requires |before| < |anchors|
  {
    Query(anchors[|before|], transports, AllClaims(before), ScopesAfter(before))
  }

  // -------------------------------------------------------------- decisions

  lemma {:induction false} CandidatesAreInside(q: Query, sel: Selection)
    requires Sound(q, sel)
    ensures forall k :: 0 <= k < |sel.candidates| ==> sel.candidates[k] < |q.transports|
  {
    forall k | 0 <= k < |sel.candidates| ensures sel.candidates[k] < |q.transports| {
      assert sel.candidates[k] in sel.candidates;
    }
  }

  function MembersOf(transports: seq<Transport>, candidates: seq<nat>): seq<string>
    requires forall k :: 0 <= k < |candidates| ==> candidates[k] < |transports|
  {
    seq(|candidates|, k requires 0 <= k < |candidates| => transports[candidates[k]].inference)
  }

  function ChainOf(transports: seq<Transport>, candidates: seq<nat>): seq<Transport>
    requires forall k :: 0 <= k < |candidates| ==> candidates[k] < |transports|
  {
    seq(|candidates|, k requires 0 <= k < |candidates| => transports[candidates[k]])
  }

  /** The outcome of one anchor's selection. */
  function Decide(q: Query, sel: Selection, anchors: seq<Anchor>): Outcome
    requires Sound(q, sel)
  {
    CandidatesAreInside(q, sel);
    if sel.total == 1 then
      var t := q.transports[sel.candidates[0]];
      Resolved(q.anchor, t.inference, NamesExactly(q.anchor, t), t.inference in q.matched)
    else if !sel.truncated && RetryChainIsUnique(q.anchor, ChainOf(q.transports, sel.candidates), anchors) then
      var members := MembersOf(q.transports, sel.candidates);
      Chain(q.anchor, if q.anchor.ids.inference.Some? then q.anchor.ids.inference.value else members[0], members)
    else
      Unresolved(q.anchor, sel.total, MembersOf(q.transports, sel.candidates), sel.truncated)
  }

  // -------------------------------------------------------- rightful claims

  /** An earlier pre-request anchor claimed `x` under these identifiers. */
  predicate ClaimedUnder(anchors: seq<Anchor>, before: seq<Outcome>, x: string, ids: Ids) {
    exists j :: 0 <= j < |before| && j < |anchors|
      && anchors[j].kind.PreRequest? && anchors[j].ids == ids && x in Claims(before[j])
  }

  predicate NamesTransport(a: Anchor, transports: seq<Transport>, x: string) {
    exists t :: t in transports && t.inference == x && NamesExactly(a, t)
  }

  /** Why an anchor may claim what is claimed already. */
  ghost predicate Justified(anchors: seq<Anchor>, transports: seq<Transport>, before: seq<Outcome>, a: Anchor, x: string) {
    && a.kind.Completion?
    && (NamesTransport(a, transports, x)
        || exists ids :: ClaimedUnder(anchors, before, x, ids) && SameLogicalScope(a.ids, ids))
  }

  /** What an anchor's outcome may be, given the outcomes before it. */
  ghost predicate Rightful(anchors: seq<Anchor>, transports: seq<Transport>, before: seq<Outcome>, o: Outcome)
    requires |before| < |anchors|
  {
    && (o.Resolved? || o.Chain? || o.Unresolved?) && o.anchor == anchors[|before|]
    && (o.Chain? ==> o.anchor.kind.PreRequest?)
    && forall x :: x in Claims(o) && x in AllClaims(before) ==> Justified(anchors, transports, before, o.anchor, x)
  }

  /** The outcome decided from a selection that agrees with the plain scan. */
  ghost predicate Served(anchors: seq<Anchor>, transports: seq<Transport>, before: seq<Outcome>, o: Outcome)
    requires |before| < |anchors|
  {
    var q := QueryAfter(anchors, transports, before);
    exists sel :: Selects(q, sel) && o == Decide(q, sel, anchors)
  }

  ghost predicate AllServed(anchors: seq<Anchor>, transports: seq<Transport>, outcomes: seq<Outcome>) {
    && |outcomes| <= |anchors|
    && forall k :: 0 <= k < |outcomes| ==> Served(anchors, transports, outcomes[..k], outcomes[k])
  }

  lemma {:induction false} ServedGrows(anchors: seq<Anchor>, transports: seq<Transport>, outcomes: seq<Outcome>, o: Outcome)
    requires AllServed(anchors, transports, outcomes) && |outcomes| < |anchors|
    requires Served(anchors, transports, outcomes, o)
    ensures AllServed(anchors, transports, outcomes + [o])
  {
    var more := outcomes + [o];
    forall k | 0 <= k < |more| ensures Served(anchors, transports, more[..k], more[k]) {
      if k < |outcomes| {
        assert more[..k] == outcomes[..k] && more[k] == outcomes[k];
      } else {
        assert more[..k] == outcomes && more[k] == o;
      }
    }
  }

  ghost predicate Lawful(anchors: seq<Anchor>, transports: seq<Transport>, outcomes: seq<Outcome>) {
    && |outcomes| <= |anchors|
    && forall k :: 0 <= k < |outcomes| ==> Rightful(anchors, transports, outcomes[..k], outcomes[k])
  }

  lemma {:induction false} LawfulGrows(anchors: seq<Anchor>, transports: seq<Transport>, outcomes: seq<Outcome>, o: Outcome)
    requires Lawful(anchors, transports, outcomes) && |outcomes| < |anchors|
    requires Rightful(anchors, transports, outcomes, o)
    ensures Lawful(anchors, transports, outcomes + [o])
  {
    var more := outcomes + [o];
    forall k | 0 <= k < |more| ensures Rightful(anchors, transports, more[..k], more[k]) {
      if k < |outcomes| {
        assert more[..k] == outcomes[..k] && more[k] == outcomes[k];
      } else {
        assert more[..k] == outcomes && more[k] == o;
      }
    }
  }

  /** Distinct pre-request anchors never claim the same inference. */
  lemma {:induction false} PreRequestClaimsAreDisjoint(
    anchors: seq<Anchor>, transports: seq<Transport>, outcomes: seq<Outcome>, j: nat, k: nat)
    requires Lawful(anchors, transports, outcomes) && j < k < |outcomes|
    requires anchors[j].kind.PreRequest? && anchors[k].kind.PreRequest?
    ensures Claims(outcomes[j]) !! Claims(outcomes[k])
  {
    var before := outcomes[..k];
    assert Rightful(anchors, transports, before, outcomes[k]);
    forall x | x in Claims(outcomes[j]) ensures x !in Claims(outcomes[k]) {
      assert before[j] == outcomes[j];
      ClaimIsSomeones(before, x);
    }
  }

  /** Whoever claims again is a completion that names the transport or shares a claimant's scope. */
  lemma {:induction false} ClaimingAgainIsJustified(
    anchors: seq<Anchor>, transports: seq<Transport>, outcomes: seq<Outcome>, j: nat, k: nat, x: string)
    requires Lawful(anchors, transports, outcomes) && j < k < |outcomes|
    requires x in Claims(outcomes[j]) && x in Claims(outcomes[k])
    ensures Justified(anchors, transports, outcomes[..k], anchors[k], x)
  {
    var before := outcomes[..k];
    assert Rightful(anchors, transports, before, outcomes[k]);
    assert before[j] == outcomes[j];
    ClaimIsSomeones(before, x);
  }

  /** No inference is in two retry chains. */
  lemma {:induction false} OneChainEach(
    anchors: seq<Anchor>, transports: seq<Transport>, outcomes: seq<Outcome>, j: nat, k: nat, x: string)
    requires Lawful(anchors, transports, outcomes) && j < |outcomes| && k < |outcomes|
    requires outcomes[j].Chain? && outcomes[k].Chain? && x in outcomes[j].members && x in outcomes[k].members
    ensures j == k
  {
    assert Rightful(anchors, transports, outcomes[..j], outcomes[j]);
    assert Rightful(anchors, transports, outcomes[..k], outcomes[k]);
    assert x in Claims(outcomes[j]) && x in Claims(outcomes[k]);
    if j < k {
      PreRequestClaimsAreDisjoint(anchors, transports, outcomes, j, k);
    } else if k < j {
      PreRequestClaimsAreDisjoint(anchors, transports, outcomes, k, j);
    }
  }

  /**
  An anchor is resolved exactly when the plain scan finds one transport that does not
  list its own inference ID, and it is that one; what is left unresolved counts the
  hits, doubled ones twice.
  */
  lemma {:induction false} ResolvedMeansUnique(
    anchors: seq<Anchor>, transports: seq<Transport>, outcomes: seq<Outcome>, k: nat)
    requires AllServed(anchors, transports, outcomes) && k < |outcomes|
    ensures var q := QueryAfter(anchors, transports, outcomes[..k]); var hits, twice := ScanHits(q), Doubled(q);
      && (outcomes[k].Resolved? <==> |hits| == 1 && twice == {})
      && (outcomes[k].Resolved? ==> exists i: nat :: hits == {i} && i < |transports| && transports[i].inference == outcomes[k].inference)
      && (outcomes[k].Unresolved? ==>
            && outcomes[k].total == |hits| + |twice|
            && (outcomes[k].truncated <==> |hits| + |twice| > MAX_RECORDED_CANDIDATES))
  {
    assert Served(anchors, transports, outcomes[..k], outcomes[k]);
    var q := QueryAfter(anchors, transports, outcomes[..k]);
    var sel :| Selects(q, sel) && outcomes[k] == Decide(q, sel, anchors);
    DoubledIsHit(q);
    if sel.total == 1 {
      var i := sel.candidates[0];
      assert i in sel.candidates;
      SingletonIs(ScanHits(q), i);
    }
  }

  lemma {:induction false} DoubledIsHit(q: Query)
    ensures Doubled(q) <= ScanHits(q) && |Doubled(q)| <= |ScanHits(q)|
  {
    DoubledIsExact(q);
    SubsetSize(Doubled(q), ScanHits(q));
  }

  lemma {:induction false} SingletonIs(s: set<nat>, i: nat)
    requires |s| == 1 && i in s
    ensures s == {i}
  {
    assert |s - {i}| == 0;
  }

  /** A derived chain claims exactly the inferences the plain scan finds; if that is one transport, it is doubled. */
  lemma {:induction false} ChainClaimsAllHits(
    anchors: seq<Anchor>, transports: seq<Transport>, outcomes: seq<Outcome>, k: nat)
    requires AllServed(anchors, transports, outcomes) && k < |outcomes| && outcomes[k].Chain?
    ensures var q := QueryAfter(anchors, transports, outcomes[..k]); var hits := ScanHits(q);
      && Claims(outcomes[k]) == (set i | i in hits && i < |transports| :: transports[i].inference)
      && |hits| >= 1 && (|hits| == 1 ==> Doubled(q) == hits)
    ensures |outcomes[k].members| >= 2
  {
    assert Served(anchors, transports, outcomes[..k], outcomes[k]);
    var q := QueryAfter(anchors, transports, outcomes[..k]);
    var sel :| Selects(q, sel) && outcomes[k] == Decide(q, sel, anchors);
    ChainClaimsHits(q, sel, anchors);
  }

  lemma {:induction false} ChainClaimsHits(q: Query, sel: Selection, anchors: seq<Anchor>)
    requires Selects(q, sel) && Decide(q, sel, anchors).Chain?
    ensures |Decide(q, sel, anchors).members| >= 2
    ensures var hits := ScanHits(q);
      && Claims(Decide(q, sel, anchors)) == (set i | i in hits && i < |q.transports| :: q.transports[i].inference)
      && |hits| >= 1 && (|hits| == 1 ==> Doubled(q) == hits)
  {
    AllAreListed(q, sel);
    MembersAre(q, sel);
    DoubledIsHit(q);
    if |ScanHits(q)| == 1 {
      SameSize(Doubled(q), ScanHits(q));
    }
  }

  lemma {:induction false} SameSize(a: set<nat>, b: set<nat>)
    requires a <= b && |a| == |b|
    ensures a == b
  {
    assert b == a + (b - a);
  }

  lemma {:induction false} MembersAre(q: Query, sel: Selection)
    requires Sound(q, sel) && forall i: nat :: i in sel.candidates <==> i in ScanHits(q)
    ensures forall k :: 0 <= k < |sel.candidates| ==> sel.candidates[k] < |q.transports|
    ensures (set m | m in MembersOf(q.transports, sel.candidates))
      == (set i | i in ScanHits(q) && i < |q.transports| :: q.transports[i].inference)
  {
    CandidatesAreInside(q, sel);
    var members := MembersOf(q.transports, sel.candidates);
    forall i: nat | i in ScanHits(q) ensures q.transports[i].inference in members {
      assert i in sel.candidates;
      var m :| 0 <= m < |sel.candidates| && sel.candidates[m] == i;
      assert members[m] == q.transports[i].inference;
    }
    forall m | m in members ensures exists i :: i in ScanHits(q) && i < |q.transports| && q.transports[i].inference == m {
      var k :| 0 <= k < |members| && members[k] == m;
      assert sel.candidates[k] in sel.candidates;
    }
  }

  /**
  The failing input: one anchor naming one transport that lists its own inference ID.
  A failed one becomes a retry chain of that transport with itself, any other is left
  unresolved between two candidates.
  */
  lemma {:induction false} OwnIdIsNeverResolved(a: Anchor, t: Transport, outcomes: seq<Outcome>)
    requires a.ids.inference == Some(t.inference) && t.inference in t.responseIds
    requires AllServed([a], [t], outcomes) && |outcomes| == 1
    ensures outcomes[0] ==
      if a.kind.PreRequest? && t.fingerprint.Some? && IsRetriableFailure(t)
      then Chain(a, t.inference, [t.inference, t.inference])
      else Unresolved(a, 2, [t.inference, t.inference], false)
  {
    assert Served([a], [t], outcomes[..0], outcomes[0]);
    var q := QueryAfter([a], [t], outcomes[..0]);
    var sel :| Selects(q, sel) && outcomes[0] == Decide(q, sel, [a]);
    assert q == Query(a, [t], {}, map[]);
    OwnIdCountsTwice(a, t, sel);
    CandidatesAreInside(q, sel);
    assert ChainOf([t], sel.candidates) == [t, t];
    assert MembersOf([t], sel.candidates) == [t.inference, t.inference];
    OwnChain(a, t);
  }

  lemma {:induction false} OwnChain(a: Anchor, t: Transport)
    ensures RetryChainIsUnique(a, [t, t], [a]) <==> a.kind.PreRequest? && t.fingerprint.Some? && IsRetriableFailure(t)
  {
    var chain := [t, t];
    assert chain[0] == t && chain[1] == t;
  }

  // ------------------------------------------------------------ the matching

  /** Every remembered scope is one a pre-request anchor claimed under. */
  ghost predicate ScopesAreClaims(anchors: seq<Anchor>, outcomes: seq<Outcome>, scopes: map<string, seq<Ids>>) {
    forall x, ids :: x in scopes && ids in scopes[x] ==> ClaimedUnder(anchors, outcomes, x, ids)
  }

  lemma {:induction false} ClaimedUnderGrows(anchors: seq<Anchor>, outcomes: seq<Outcome>, o: Outcome, x: string, ids: Ids)
    requires ClaimedUnder(anchors, outcomes, x, ids)
    ensures ClaimedUnder(anchors, outcomes + [o], x, ids)
  {
    var j :| 0 <= j < |outcomes| && j < |anchors|
      && anchors[j].kind.PreRequest? && anchors[j].ids == ids && x in Claims(outcomes[j]);
    assert (outcomes + [o])[j] == outcomes[j];
  }

  lemma {:induction false} RememberedMembers(
    scopes: map<string, seq<Ids>>, a: Anchor, members: seq<string>, x: string, ids: Ids)
    requires x in RememberedAll(scopes, a, members) && ids in RememberedAll(scopes, a, members)[x]
    ensures (x in scopes && ids in scopes[x]) || (a.kind.PreRequest? && ids == a.ids && x in members)
  {
    if members != [] {
      var before := RememberedAll(scopes, a, members[..|members| - 1]);
      if x in before && ids in before[x] {
        RememberedMembers(scopes, a, members[..|members| - 1], x, ids);
      }
    }
  }

  lemma {:induction false} RememberedClaims(scopes: map<string, seq<Ids>>, o: Outcome, x: string, ids: Ids)
    requires x in RememberedOf(scopes, o) && ids in RememberedOf(scopes, o)[x]
    ensures (x in scopes && ids in scopes[x])
      || ((o.Resolved? || o.Chain?) && o.anchor.kind.PreRequest? && ids == o.anchor.ids && x in Claims(o))
  {
    if o.Chain? {
      RememberedMembers(scopes, o.anchor, o.members, x, ids);
    }
  }

  /** Remembering an anchor's claims after its outcome keeps the scopes true. */
  lemma {:induction false} ScopesGrow(anchors: seq<Anchor>, outcomes: seq<Outcome>, o: Outcome)
    requires |outcomes| < |anchors| && ScopesAreClaims(anchors, outcomes, ScopesAfter(outcomes))
    requires o.Resolved? || o.Chain? ==> o.anchor == anchors[|outcomes|]
    ensures ScopesAfter(outcomes + [o]) == RememberedOf(ScopesAfter(outcomes), o)
    ensures ScopesAreClaims(anchors, outcomes + [o], ScopesAfter(outcomes + [o]))
  {
    assert (outcomes + [o])[..|outcomes|] == outcomes;
    var scopes, more := ScopesAfter(outcomes), ScopesAfter(outcomes + [o]);
    forall x, ids | x in more && ids in more[x] ensures ClaimedUnder(anchors, outcomes + [o], x, ids) {
      RememberedClaims(scopes, o, x, ids);
      if x in scopes && ids in scopes[x] {
        ClaimedUnderGrows(anchors, outcomes, o, x, ids);
      } else {
        assert (outcomes + [o])[|outcomes|] == o;
      }
    }
  }

  /** A candidate that is claimed already is one the anchor may claim again. */
  lemma {:induction false} CandidateIsJustified(
    q: Query, sel: Selection, anchors: seq<Anchor>, outcomes: seq<Outcome>, i: nat)
    requires Sound(q, sel) && i in sel.candidates
    requires ScopesAreClaims(anchors, outcomes, q.scopes)
    ensures i < |q.transports|
    ensures q.transports[i].inference in q.matched ==>
      Justified(anchors, q.transports, outcomes, q.anchor, q.transports[i].inference)
  {
    var t := q.transports[i];
    assert t in q.transports;
    if t.inference in q.matched {
      assert Corroborates(q.anchor, t, q.scopes);
    }
  }

  lemma {:induction false} DecisionIsRightful(
    transports: seq<Transport>, sel: Selection, anchors: seq<Anchor>, outcomes: seq<Outcome>)
    requires |outcomes| < |anchors| && Selects(QueryAfter(anchors, transports, outcomes), sel)
    requires ScopesAreClaims(anchors, outcomes, ScopesAfter(outcomes))
    ensures Rightful(anchors, transports, outcomes, Decide(QueryAfter(anchors, transports, outcomes), sel, anchors))
    ensures Served(anchors, transports, outcomes, Decide(QueryAfter(anchors, transports, outcomes), sel, anchors))
  {
    var q := QueryAfter(anchors, transports, outcomes);
    var o := Decide(q, sel, anchors);
    forall x | x in Claims(o) && x in AllClaims(outcomes) ensures Justified(anchors, transports, outcomes, q.anchor, x) {
      var i := ClaimIsCandidate(q, sel, anchors, x);
      CandidateIsJustified(q, sel, anchors, outcomes, i);
    }
  }

  lemma {:induction false} ClaimIsCandidate(q: Query, sel: Selection, anchors: seq<Anchor>, x: string) returns (i: nat)
    requires Sound(q, sel) && x in Claims(Decide(q, sel, anchors))
    ensures i in sel.candidates && i < |q.transports| && q.transports[i].inference == x
  {
    if sel.total == 1 {
      i := sel.candidates[0];
    } else {
      CandidatesAreInside(q, sel);
      var members := MembersOf(q.transports, sel.candidates);
      var k :| 0 <= k < |members| && members[k] == x;
      i := sel.candidates[k];
    }
  }

  /** The laws a run has kept so far. */
  ghost predicate Progress(anchors: seq<Anchor>, transports: seq<Transport>, outcomes: seq<Outcome>) {
    && Lawful(anchors, transports, outcomes) && AllServed(anchors, transports, outcomes)
    && ScopesAreClaims(anchors, outcomes, ScopesAfter(outcomes))
  }

  lemma {:induction false} ProgressGrows(
    anchors: seq<Anchor>, transports: seq<Transport>, outcomes: seq<Outcome>, sel: Selection)
    requires |outcomes| < |anchors| && Progress(anchors, transports, outcomes)
    requires Selects(QueryAfter(anchors, transports, outcomes), sel)
    ensures var o := Decide(QueryAfter(anchors, transports, outcomes), sel, anchors);
      && Progress(anchors, transports, outcomes + [o])
      && AllClaims(outcomes + [o]) == AllClaims(outcomes) + Claims(o)
      && ScopesAfter(outcomes + [o]) == RememberedOf(ScopesAfter(outcomes), o)
  {
    var o := Decide(QueryAfter(anchors, transports, outcomes), sel, anchors);
    DecisionIsRightful(transports, sel, anchors, outcomes);
    LawfulGrows(anchors, transports, outcomes, o);
    ServedGrows(anchors, transports, outcomes, o);
    AllClaimsGrow(outcomes, o);
    ScopesGrow(anchors, outcomes, o);
  }

  datatype Report = Report(resolved: nat, unresolved: nat, unmatchedTransports: nat, skippedExisting: bool)

  predicate IsResolution(o: Outcome) { o.Resolved? || o.Chain? || o.SessionScope? }

  function CountResolved(outcomes: seq<Outcome>): nat {
    if outcomes == [] then 0
    else CountResolved(outcomes[..|outcomes| - 1]) + if IsResolution(outcomes[|outcomes| - 1]) then 1 else 0
  }

  function CountUnmatched(outcomes: seq<Outcome>): nat {
    if outcomes == [] then 0
    else CountUnmatched(outcomes[..|outcomes| - 1]) + if outcomes[|outcomes| - 1].Unmatched? then 1 else 0
  }

  predicate Reports(r: Report, outcomes: seq<Outcome>) {
    && r.resolved == CountResolved(outcomes) && r.resolved + r.unresolved == |outcomes|
    && r.unmatchedTransports == CountUnmatched(outcomes) <= r.unresolved && !r.skippedExisting
  }

  lemma {:induction false} ReportGrows(r: Report, outcomes: seq<Outcome>, o: Outcome)
    requires Reports(r, outcomes)
    ensures Reports(
      Report(r.resolved + (if IsResolution(o) then 1 else 0), r.unresolved + (if IsResolution(o) then 0 else 1),
             r.unmatchedTransports + (if o.Unmatched? then 1 else 0), false), outcomes + [o])
  {
    assert (outcomes + [o])[..|outcomes|] == outcomes;
  }

  /** A run in progress. */
  class Derivation {
    var matched: set<string>
    var scopes: map<string, seq<Ids>>
    var appended: seq<Outcome>
    var report: Report

    constructor ()
      ensures matched == {} && scopes == map[] && appended == [] && Reports(report, [])
    {
      matched, scopes, appended, report := {}, map[], [], Report(0, 0, 0, false);
    }

    method Append(o: Outcome)
      requires Reports(report, appended)
      modifies this`appended, this`report
      ensures appended == old(appended) + [o] && Reports(report, appended)
    {
      ReportGrows(report, appended, o);
      report := Report(
        report.resolved + (if IsResolution(o) then 1 else 0), report.unresolved + (if IsResolution(o) then 0 else 1),
        report.unmatchedTransports + (if o.Unmatched? then 1 else 0), false);
      appended := appended + [o];
    }

    method Claim(a: Anchor, inference: string)
      modifies this`matched, this`scopes
      ensures matched == old(matched) + {inference} && scopes == Remembered(old(scopes), a, inference)
    {
      matched := matched + {inference};
      if a.kind.PreRequest? {
        scopes := scopes[inference := (if inference in scopes then scopes[inference] else []) + [a.ids]];
      }
    }

    method ClaimAll(a: Anchor, members: seq<string>)
      modifies this`matched, this`scopes
      ensures matched == old(matched) + set m | m in members
      ensures scopes == RememberedAll(old(scopes), a, members)
    {
      for k := 0 to |members|
        invariant matched == old(matched) + set m | m in members[..k]
        invariant scopes == RememberedAll(old(scopes), a, members[..k])
      {
        assert members[..k + 1] == members[..k] + [members[k]];
        assert members[..k + 1][..k] == members[..k];
        Claim(a, members[k]);
      }
      assert members[..|members|] == members;
    }

    /** The state after the first anchors of a run. */
    ghost predicate Running(anchors: seq<Anchor>, transports: seq<Transport>)
      reads this
    {
      && Progress(anchors, transports, appended) && Reports(report, appended)
      && matched == AllClaims(appended) && scopes == ScopesAfter(appended)
    }

    /** Matches and remembers what an outcome claims. */
    method Record(o: Outcome)
      modifies this`matched, this`scopes
      ensures matched == old(matched) + Claims(o) && scopes == RememberedOf(old(scopes), o)
    {
      match o {
        case Resolved(anchor, inference, _, _) => Claim(anchor, inference);
        case Chain(anchor, _, members) => ClaimAll(anchor, members);
        case _ =>
      }
    }

    method Serve(anchors: seq<Anchor>, transports: seq<Transport>, sel: Selection)
      requires Running(anchors, transports) && |appended| < |anchors|
      requires Selects(Query(anchors[|appended|], transports, matched, scopes), sel)
      modifies this
      ensures Running(anchors, transports) && |appended| == old(|appended|) + 1
    {
      var o := Decide(Query(anchors[|appended|], transports, matched, scopes), sel, anchors);
      ProgressGrows(anchors, transports, appended, sel);
      Record(o);
      Append(o);
    }

    method MatchAnchors(anchors: seq<Anchor>, transports: seq<Transport>)
      requires Running(anchors, transports) && appended == []
      modifies this
      ensures Running(anchors, transports) && |appended| == |anchors|
    {
      var byTime := IndexByTime(transports);
      var byExact := IndexByExactId(transports);
      for i := 0 to |anchors|
        invariant Running(anchors, transports) && |appended| == i
      {
        var q := Query(anchors[i], transports, matched, scopes);
        var sel := CandidatesForAnchor(q, byTime, byExact);
        Serve(anchors, transports, sel);
      }
    }

    method ReportLeftovers(transports: seq<Transport>, agents: map<string, Ids>)
      requires Reports(report, appended)
      modifies this`appended, this`report
      ensures appended == old(appended) + Leftovers(transports, matched, agents) && Reports(report, appended)
    {
      for i := 0 to |transports|
        invariant appended == old(appended) + Leftovers(transports[..i], matched, agents) && Reports(report, appended)
      {
        var t := transports[i];
        assert transports[..i + 1][..i] == transports[..i];
        if t.inference !in matched {
          if t.session.Some? && t.session.value in agents {
            Append(SessionScope(t, agents[t.session.value]));
          } else {
            Append(Unmatched(t));
          }
        }
      }
      assert transports[..|transports|] == transports;
    }
  }

  function Leftover(t: Transport, agents: map<string, Ids>): Outcome {
    if t.session.Some? && t.session.value in agents then SessionScope(t, agents[t.session.value]) else Unmatched(t)
  }

  /** One outcome for each transport nobody claimed, in log order. */
  function Leftovers(transports: seq<Transport>, matched: set<string>, agents: map<string, Ids>): seq<Outcome> {
    if transports == [] then []
    else
      var n := |transports| - 1;
      Leftovers(transports[..n], matched, agents)
      + if transports[n].inference !in matched then [Leftover(transports[n], agents)] else []
  }

  function Unclaimed(transports: seq<Transport>, matched: set<string>): set<nat> {
    set i: nat | i < |transports| && transports[i].inference !in matched
  }

  lemma {:induction false} OneLeftoverEach(transports: seq<Transport>, matched: set<string>, agents: map<string, Ids>)
    ensures |Leftovers(transports, matched, agents)| == |Unclaimed(transports, matched)|
  {
    if transports != [] {
      var n := |transports| - 1;
      OneLeftoverEach(transports[..n], matched, agents);
      assert Unclaimed(transports, matched)
        == Unclaimed(transports[..n], matched) + if transports[n].inference !in matched then {n} else {};
    }
  }

  // ------------------------------------------------------------- whole runs

  /** A run on what was ingested: rightful outcomes for the anchors, then the leftovers. */
  ghost predicate Derives(s: CorrelationIngest.State, outcomes: seq<Outcome>, report: Report) {
    && |s.anchors| <= |outcomes| && Lawful(s.anchors, s.transports, outcomes[..|s.anchors|])
    && AllServed(s.anchors, s.transports, outcomes[..|s.anchors|])
    && outcomes[|s.anchors|..] == Leftovers(s.transports, AllClaims(outcomes[..|s.anchors|]), s.scopes)
    && Reports(report, outcomes)
  }

  ghost predicate Derived(log: Log, outcomes: seq<Outcome>, report: Report) {
    if CorrelationIngest.HasOutput(log) then outcomes == [] && report == Report(0, 0, 0, true)
    else exists s :: CorrelationIngest.Ingested(s, log) && Derives(s, outcomes, report)
  }

  /** Some index outgrows its limit on the way. */
  ghost predicate Overgrown(log: Log) {
    exists n, s :: 0 <= n <= |log| && CorrelationIngest.Ingested(s, log[..n]) && !CorrelationIngest.WithinLimits(s)
  }

  method Derive(log: Log) returns (result: Option<(seq<Outcome>, Report)>)
    ensures result.Some? ==> Derived(log, result.value.0, result.value.1)
    ensures result.None? ==> Overgrown(log)
  {
    var ok, s, n := CorrelationIngest.IngestLog(log);
    if !ok {
      return None;
    }
    assert log[..|log|] == log;
    if s.existing {
      CorrelationIngest.MeaningIs(log);
      return Some(([], Report(0, 0, 0, true)));
    }
    CorrelationIngest.MeaningIs(log);
    var run := new Derivation();
    run.MatchAnchors(s.anchors, s.transports);
    ghost var first := run.appended;
    run.ReportLeftovers(s.transports, s.scopes);
    assert run.appended[..|s.anchors|] == first;
    assert Derives(s, run.appended, run.report);
    return Some((run.appended, run.report));
  }

  /** One event per anchor and one per transport left unclaimed; the report adds up to them. */
  lemma {:induction false} EveryOneIsAccounted(s: CorrelationIngest.State, outcomes: seq<Outcome>, report: Report)
    requires Derives(s, outcomes, report)
    ensures var unclaimed := Unclaimed(s.transports, AllClaims(outcomes[..|s.anchors|]));
      && |outcomes| == |s.anchors| + |unclaimed| == report.resolved + report.unresolved
      && report.unmatchedTransports <= report.unresolved
    ensures forall k :: 0 <= k < |s.anchors| ==> !outcomes[k].SessionScope? && !outcomes[k].Unmatched? && outcomes[k].anchor == s.anchors[k]
  {
    var first := outcomes[..|s.anchors|];
    OneLeftoverEach(s.transports, AllClaims(first), s.scopes);
    forall k | 0 <= k < |s.anchors|
      ensures !outcomes[k].SessionScope? && !outcomes[k].Unmatched? && outcomes[k].anchor == s.anchors[k]
    {
      assert Rightful(s.anchors, s.transports, first[..k], first[k]);
    }
  }

  /** The appended events, as the next reader of the log sees them. */
  function Outputs(outcomes: seq<Outcome>, sequence: nat): Log {
    seq(|outcomes|, k requires 0 <= k < |outcomes| =>
      Event(sequence + k, 0, CorrelationOutput, Ids(None, None, None, None, None, None), false, None, None))
  }

  /** Deriving again on the result appends nothing. */
  lemma {:induction false} DerivingAgainAppendsNothing(
    log: Log, sequence: nat, outcomes: seq<Outcome>, report: Report, again: seq<Outcome>, second: Report)
    requires Derived(log, outcomes, report) && Derived(log + Outputs(outcomes, sequence), again, second)
    ensures again == []
  {
    var longer := log + Outputs(outcomes, sequence);
    if outcomes != [] {
      assert longer[|log|].role.CorrelationOutput?;
    } else {
      assert longer == log;
      if !CorrelationIngest.HasOutput(log) {
        var s :| CorrelationIngest.Ingested(s, log) && Derives(s, outcomes, report);
        var t :| CorrelationIngest.Ingested(t, log) && Derives(t, again, second);
        EveryOneIsAccounted(s, outcomes, report);
        NothingToServe(s, t, again, second);
      }
    }
  }

  lemma {:induction false} NothingToServe(
    s: CorrelationIngest.State, t: CorrelationIngest.State, outcomes: seq<Outcome>, report: Report)
    requires s.anchors == [] == t.anchors && |s.transports| == |t.transports|
    requires Unclaimed(s.transports, {}) == {} && Derives(t, outcomes, report)
    ensures outcomes == []
  {
    EveryOneIsAccounted(t, outcomes, report);
    assert |s.transports| > 0 ==> 0 in Unclaimed(s.transports, {});
  }

  // -------------------------------------------------- chains in the summary

  /** An outcome as the event-log summary reads it. */
  function AsEvent(o: Outcome, sequence: nat): Summary.Event {
    var kind := if IsResolution(o) then Summary.InferenceCorrelation else Summary.InferenceCorrelationUnresolved;
    var inference :=
      match o
      case Resolved(_, inference, _, _) => Some(inference)
      case Chain(_, canonical, _) => Some(canonical)
      case Unresolved(anchor, _, _, _) => anchor.ids.inference
      case SessionScope(t, _) => Some(t.inference)
      case Unmatched(t) => Some(t.inference);
    var fields := Summary.NO_FIELDS.(
      uniqueRetryChain := o.Chain?, members := if o.Chain? then o.members else []);
    Summary.Event(sequence, Summary.Correlation, kind, None, None, inference, None, Some(fields), None)
  }

  function AsEvents(outcomes: seq<Outcome>, sequence: nat): Summary.Log {
    seq(|outcomes|, k requires 0 <= k < |outcomes| => AsEvent(outcomes[k], sequence + k))
  }

  /** What is left over is no retry chain. */
  lemma {:induction false} LeftoversAreNoChains(transports: seq<Transport>, matched: set<string>, agents: map<string, Ids>)
    ensures forall o :: o in Leftovers(transports, matched, agents) ==> !o.Chain?
  {
    if transports != [] {
      LeftoversAreNoChains(transports[..|transports| - 1], matched, agents);
    }
  }

  /** No two events list one inference in a retry chain. */
  ghost predicate ChainsApart(outcomes: seq<Outcome>) {
    forall j, k, m :: 0 <= j < |outcomes| && 0 <= k < |outcomes| && InChain(outcomes[j], m) && InChain(outcomes[k], m)
      ==> j == k
  }

  predicate InChain(o: Outcome, m: string) { o.Chain? && m in o.members }

  ghost predicate TwoOrMoreEach(outcomes: seq<Outcome>) {
    forall k :: 0 <= k < |outcomes| && outcomes[k].Chain? ==> |outcomes[k].members| >= 2
  }

  lemma {:induction false} FirstChainsApart(anchors: seq<Anchor>, transports: seq<Transport>, first: seq<Outcome>)
    requires Lawful(anchors, transports, first)
    ensures ChainsApart(first)
  {
    forall j, k, m | 0 <= j < |first| && 0 <= k < |first| && InChain(first[j], m) && InChain(first[k], m)
      ensures j == k
    {
      OneChainEach(anchors, transports, first, j, k, m);
    }
  }

  lemma {:induction false} FirstTwoOrMoreEach(anchors: seq<Anchor>, transports: seq<Transport>, first: seq<Outcome>)
    requires AllServed(anchors, transports, first)
    ensures TwoOrMoreEach(first)
  {
    forall k | 0 <= k < |first| && first[k].Chain? ensures |first[k].members| >= 2 {
      ChainClaimsAllHits(anchors, transports, first, k);
    }
  }

  lemma {:induction false} MoreChainsApart(outcomes: seq<Outcome>, n: nat)
    requires n <= |outcomes| && ChainsApart(outcomes[..n]) && TwoOrMoreEach(outcomes[..n])
    requires forall o :: o in outcomes[n..] ==> !o.Chain?
    ensures ChainsApart(outcomes) && TwoOrMoreEach(outcomes)
  {
    var first := outcomes[..n];
    forall k | n <= k < |outcomes| ensures !outcomes[k].Chain? {
      assert outcomes[k] in outcomes[n..];
    }
    assert forall k :: 0 <= k < n ==> first[k] == outcomes[k];
  }

  /** Over a whole run, leftovers included. */
  lemma {:induction false} DerivedChainsApart(s: CorrelationIngest.State, outcomes: seq<Outcome>, report: Report)
    requires Derives(s, outcomes, report)
    ensures ChainsApart(outcomes) && TwoOrMoreEach(outcomes)
  {
    FirstChainsApart(s.anchors, s.transports, outcomes[..|s.anchors|]);
    FirstTwoOrMoreEach(s.anchors, s.transports, outcomes[..|s.anchors|]);
    LeftoversAreNoChains(s.transports, AllClaims(outcomes[..|s.anchors|]), s.scopes);
    MoreChainsApart(outcomes, |s.anchors|);
  }

  lemma {:induction false} OnlyOwnChainLists(
    outcomes: seq<Outcome>, base: Summary.Log, sequence: nat, k: nat, e: Summary.Event, m: string)
    requires ChainsApart(outcomes) && k < |outcomes| && outcomes[k].Chain?
    requires forall b :: b in base ==> !b.source.Correlation?
    requires e in base + AsEvents(outcomes, sequence) && m in outcomes[k].members && Summary.Lists(e, m)
    ensures e.inference == Some(outcomes[k].canonical)
  {
    var events := AsEvents(outcomes, sequence);
    assert e in events;
    var j :| 0 <= j < |events| && events[j] == e;
    assert InChain(outcomes[j], m) && InChain(outcomes[k], m);
  }

  lemma {:induction false} ApartChainCountsOnce(outcomes: seq<Outcome>, base: Summary.Log, sequence: nat, k: nat)
    requires ChainsApart(outcomes) && k < |outcomes| && outcomes[k].Chain? && outcomes[k].members != []
    requires forall b :: b in base ==> !b.source.Correlation?
    ensures var aliases := Summary.InferenceAliases(base + AsEvents(outcomes, sequence));
      Summary.Canonical(aliases, set m | m in outcomes[k].members) == {outcomes[k].canonical}
  {
    var log := base + AsEvents(outcomes, sequence);
    var chain := AsEvent(outcomes[k], sequence + k);
    assert AsEvents(outcomes, sequence)[k] == chain;
    assert chain in log && Summary.IsRetryChain(chain);
    forall e, m | e in log && m in Summary.Normalized(chain).members && Summary.Lists(e, m)
      ensures e.inference == chain.inference
    {
      OnlyOwnChainLists(outcomes, base, sequence, k, e, m);
    }
    Summary.ChainCountsOnce(log, chain);
    var members := set m | m in outcomes[k].members;
    assert outcomes[k].members[0] in members;
    var canon := Summary.Canonical(Summary.InferenceAliases(log), members);
    assert Summary.Canon(Summary.InferenceAliases(log), outcomes[k].members[0]) in canon;
  }

  /** The transports of a retry chain count as one logical inference in the summary of the log with the derived events. */
  lemma {:induction false} DerivedChainCountsOnce(
    s: CorrelationIngest.State, outcomes: seq<Outcome>, report: Report, base: Summary.Log, sequence: nat, k: nat)
    requires Derives(s, outcomes, report) && k < |outcomes| && outcomes[k].Chain?
    requires forall b :: b in base ==> !b.source.Correlation?
    ensures var aliases := Summary.InferenceAliases(base + AsEvents(outcomes, sequence));
      Summary.Canonical(aliases, set m | m in outcomes[k].members) == {outcomes[k].canonical}
  {
    DerivedChainsApart(s, outcomes, report);
    ApartChainCountsOnce(outcomes, base, sequence, k);
  }
}
