/**
Ingesting the log: response events may come before or after the request summary that
creates their transport, so early values wait in pending maps under the attempt and the
inference they name. The reference is one slot machine, used for status, for
terminal state and for response identifiers alike.
*/
module CorrelationIngest {
  import opened Basics
  import opened Options
  import opened CorrelationTypes

  datatype Key = AttemptKey(attempt: string) | InferenceKey(inference: string)

  // ----------------------------------------------------------- slot machine

  /** Transports' values by index, the keys that find a transport, and values that came too early. */
  datatype Slots<T> = Slots(indices: map<Key, nat>, pending: map<Key, T>, values: seq<Option<T>>)

  datatype Signal<T> = Opens | Carries(value: Option<T>) | Nothing

  function Indexed(indices: map<Key, nat>, ids: Ids): Option<nat> {
    if ids.attempt.Some? && AttemptKey(ids.attempt.value) in indices then Some(indices[AttemptKey(ids.attempt.value)])
    else if ids.inference.Some? && InferenceKey(ids.inference.value) in indices
    then Some(indices[InferenceKey(ids.inference.value)])
    else None
  }

  function Put<T>(m: map<Key, T>, ids: Ids, value: T): map<Key, T> {
    var m := if ids.attempt.Some? then m[AttemptKey(ids.attempt.value) := value] else m;
    if ids.inference.Some? then m[InferenceKey(ids.inference.value) := value] else m
  }

  function Find<T>(m: map<Key, T>, ids: Ids): Option<T> {
    if ids.attempt.Some? && AttemptKey(ids.attempt.value) in m then Some(m[AttemptKey(ids.attempt.value)])
    else if ids.inference.Some? && InferenceKey(ids.inference.value) in m then Some(m[InferenceKey(ids.inference.value)])
    else None
  }

  function KeysOf(ids: Ids): set<Key> {
    (if ids.attempt.Some? then {AttemptKey(ids.attempt.value)} else {})
    + (if ids.inference.Some? then {InferenceKey(ids.inference.value)} else {})
  }

  /** How a value that finds its transport joins the one already there. */
  type Join<!T> = (Option<T>, Option<T>) -> Option<T>

  function Step<T>(join: Join<T>, s: Slots<T>, ids: Ids, signal: Signal<T>): Slots<T> {
    match signal
    case Nothing => s
    case Opens =>
      Slots(Put(s.indices, ids, |s.values|), s.pending - KeysOf(ids), s.values + [Find(s.pending, ids)])
    case Carries(value) =>
      var index := Indexed(s.indices, ids);
      if index.Some? then
        if index.value < |s.values|
        then s.(values := s.values[index.value := join(s.values[index.value], value)]) else s
      else if value.Some? then s.(pending := Put(s.pending, ids, value.value))
      else s
  }

  /** What a log is to one slot: its events' identifiers with what each does. */
  type Trace<T> = seq<(Ids, Signal<T>)>

  function Run<T>(join: Join<T>, trace: Trace<T>): Slots<T> {
    if trace == [] then Slots(map[], map[], [])
    else Step(join, Run(join, trace[..|trace| - 1]), trace[|trace| - 1].0, trace[|trace| - 1].1)
  }

  /** Status and terminal state: the later value, present or not. */
  function Later<T>(): Join<T> { (held: Option<T>, value: Option<T>) => value }

  /** Response identifiers: all of them. */
  function Gathered(): Join<set<string>> {
    (held: Option<set<string>>, value: Option<set<string>>) =>
      if held.Some? && value.Some? then Some(held.value + value.value) else if value.Some? then value else held
  }

  // ------------------------------------------- one transport, on its own

  /** The names one transport goes by: its inference, its responses' attempt, its summary's attempt. */
  datatype Names = Names(inference: string, attempt: string, summary: Option<string>)

  /** An event that answers this transport. */
  predicate Answers(ids: Ids, n: Names) { ids.inference == Some(n.inference) && ids.attempt == Some(n.attempt) }

  predicate OpensIt<T>(e: (Ids, Signal<T>), n: Names) { e.1.Opens? && e.0.inference == Some(n.inference) }

  /** Responses carry both of the transport's names or neither; no other summary uses them. */
  predicate Fits<T>(e: (Ids, Signal<T>), n: Names) {
    match e.1
    case Nothing => true
    case Carries(_) =>
      && (e.0.attempt == Some(n.attempt) <==> e.0.inference == Some(n.inference))
      && (n.summary.Some? && n.summary.value != n.attempt ==> e.0.attempt != n.summary)
    case Opens =>
      && e.0.inference.Some?
      && (if e.0.inference == Some(n.inference) then e.0.attempt == n.summary else e.0.attempt != Some(n.attempt))
  }

  /** Every event fits, and the transport has one summary at most. */
  predicate WellNamed<T>(trace: Trace<T>, n: Names) {
    && (forall k :: 0 <= k < |trace| ==> Fits(trace[k], n))
    && (forall j, k :: 0 <= j < |trace| && 0 <= k < |trace| && OpensIt(trace[j], n) && OpensIt(trace[k], n) ==> j == k)
  }

  /** Before its summary a transport remembers the latest value; after it values are joined. */
  datatype Phase<T> = Early(latest: Option<T>) | Open(value: Option<T>)

  function Next<T>(join: Join<T>, phase: Phase<T>, e: (Ids, Signal<T>), n: Names): Phase<T> {
    if OpensIt(e, n) then (if phase.Early? then Open(phase.latest) else phase)
    else if e.1.Carries? && Answers(e.0, n) then
      match phase
      case Early(_) => if e.1.value.Some? then Early(e.1.value) else phase
      case Open(value) => Open(join(value, e.1.value))
    else phase
  }

  function PhaseOf<T>(join: Join<T>, trace: Trace<T>, n: Names): Phase<T> {
    if trace == [] then Early(None) else Next(join, PhaseOf(join, trace[..|trace| - 1], n), trace[|trace| - 1], n)
  }

  /** How many transports a trace has opened. */
  function OpenedCount<T>(trace: Trace<T>): nat {
    if trace == [] then 0 else OpenedCount(trace[..|trace| - 1]) + if trace[|trace| - 1].1.Opens? then 1 else 0
  }

  /** The place in the transport list that the summary takes. */
  function PlaceOf<T>(trace: Trace<T>, n: Names): nat {
    if trace == [] then 0
    else if OpensIt(trace[|trace| - 1], n) then OpenedCount(trace[..|trace| - 1])
    else PlaceOf(trace[..|trace| - 1], n)
  }

  ghost predicate Waiting<T>(s: Slots<T>, n: Names, latest: Option<T>) {
    && AttemptKey(n.attempt) !in s.indices && InferenceKey(n.inference) !in s.indices
    && (if latest.Some? then
          && AttemptKey(n.attempt) in s.pending && s.pending[AttemptKey(n.attempt)] == latest.value
          && InferenceKey(n.inference) in s.pending && s.pending[InferenceKey(n.inference)] == latest.value
        else AttemptKey(n.attempt) !in s.pending && InferenceKey(n.inference) !in s.pending)
    && (n.summary.Some? && n.summary.value != n.attempt ==> AttemptKey(n.summary.value) !in s.pending)
  }

  ghost predicate Placed<T>(s: Slots<T>, n: Names, place: nat, value: Option<T>) {
    && place < |s.values| && s.values[place] == value
    && InferenceKey(n.inference) in s.indices && s.indices[InferenceKey(n.inference)] == place
    && (AttemptKey(n.attempt) in s.indices ==> s.indices[AttemptKey(n.attempt)] == place)
    && (forall k :: k in s.indices && s.indices[k] == place ==>
          k == InferenceKey(n.inference) || (k.AttemptKey? && Some(k.attempt) == n.summary))
  }

  ghost predicate Follows<T>(s: Slots<T>, n: Names, place: nat, phase: Phase<T>) {
    match phase
    case Early(latest) => Waiting(s, n, latest)
    case Open(value) => Placed(s, n, place, value)
  }

  lemma {:induction false} OpenStep<T>(join: Join<T>, s: Slots<T>, n: Names, e: (Ids, Signal<T>), latest: Option<T>)
    requires Waiting(s, n, latest) && OpensIt(e, n) && Fits(e, n)
    requires forall k :: k in s.indices ==> s.indices[k] < |s.values|
    ensures Placed(Step(join, s, e.0, e.1), n, |s.values|, latest)
  {
  }

  lemma {:induction false} OtherStep<T>(join: Join<T>, s: Slots<T>, n: Names, e: (Ids, Signal<T>), place: nat, phase: Phase<T>)
    requires Follows(s, n, place, phase) && Fits(e, n) && !OpensIt(e, n) && !(e.1.Carries? && Answers(e.0, n))
    ensures Follows(Step(join, s, e.0, e.1), n, place, phase)
  {
  }

  lemma {:induction false} AnswerStep<T>(join: Join<T>, s: Slots<T>, n: Names, e: (Ids, Signal<T>), place: nat, phase: Phase<T>)
    requires Follows(s, n, place, phase) && e.1.Carries? && Answers(e.0, n)
    ensures Follows(Step(join, s, e.0, e.1), n, place, Next(join, phase, e, n))
  {
  }

  lemma {:induction false} IndicesAreInside<T>(join: Join<T>, trace: Trace<T>)
    ensures forall k :: k in Run(join, trace).indices ==> Run(join, trace).indices[k] < |Run(join, trace).values|
    ensures |Run(join, trace).values| == OpenedCount(trace)
  {
    if trace != [] {
      IndicesAreInside(join, trace[..|trace| - 1]);
    }
  }

  lemma {:induction false} FewerAreWellNamed<T>(trace: Trace<T>, n: Names)
    requires trace != [] && WellNamed(trace, n)
    ensures WellNamed(trace[..|trace| - 1], n) && Fits(trace[|trace| - 1], n)
  {
    var before := trace[..|trace| - 1];
    assert forall k :: 0 <= k < |before| ==> before[k] == trace[k];
  }

  predicate Opened<T>(trace: Trace<T>, n: Names) { exists k :: 0 <= k < |trace| && OpensIt(trace[k], n) }

  lemma {:induction false} OpensOnce<T>(trace: Trace<T>, n: Names)
    requires trace != [] && WellNamed(trace, n) && OpensIt(trace[|trace| - 1], n)
    ensures !Opened(trace[..|trace| - 1], n)
  {
    var before := trace[..|trace| - 1];
    forall k | 0 <= k < |before| ensures !OpensIt(before[k], n) {
      assert before[k] == trace[k];
    }
  }

  lemma {:induction false} OpenMeansOpened<T>(join: Join<T>, trace: Trace<T>, n: Names)
    requires PhaseOf(join, trace, n).Open?
    ensures Opened(trace, n)
  {
    var before := trace[..|trace| - 1];
    if PhaseOf(join, before, n).Open? {
      OpenMeansOpened(join, before, n);
      var k :| 0 <= k < |before| && OpensIt(before[k], n);
      assert OpensIt(trace[k], n);
    } else {
      assert OpensIt(trace[|trace| - 1], n);
    }
  }

  /** Whatever else is in the log, a transport's slot is what its own events alone make of it. */
  lemma {:induction false} SlotFollowsItsEvents<T>(join: Join<T>, trace: Trace<T>, n: Names)
    requires WellNamed(trace, n)
    ensures Follows(Run(join, trace), n, PlaceOf(trace, n), PhaseOf(join, trace, n))
  {
    if trace != [] {
      var before, e := trace[..|trace| - 1], trace[|trace| - 1];
      FewerAreWellNamed(trace, n);
      SlotFollowsItsEvents(join, before, n);
      var phase := PhaseOf(join, before, n);
      if OpensIt(e, n) {
        OpensOnce(trace, n);
        if phase.Open? {
          OpenMeansOpened(join, before, n);
          assert false;
        }
        IndicesAreInside(join, before);
        OpenStep(join, Run(join, before), n, e, phase.latest);
      } else if e.1.Carries? && Answers(e.0, n) {
        AnswerStep(join, Run(join, before), n, e, PlaceOf(before, n), phase);
      } else {
        OtherStep(join, Run(join, before), n, e, PlaceOf(before, n), phase);
      }
    }
  }

  // ------------------------------------------- the last value, and its loss

  /** The value of the last response event that carried one. */
  function LastCarried<T>(trace: Trace<T>, n: Names): Option<T> {
    if trace == [] then None
    else
      var e := trace[|trace| - 1];
      if e.1.Carries? && e.1.value.Some? && Answers(e.0, n) then e.1.value else LastCarried(trace[..|trace| - 1], n)
  }

  /** The last response event after the summary carries no value. */
  predicate Cleared<T>(trace: Trace<T>, n: Names) {
    if trace == [] then false
    else
      var before, e := trace[..|trace| - 1], trace[|trace| - 1];
      if e.1.Carries? && Answers(e.0, n) then Opened(before, n) && e.1.value.None? else Cleared(before, n)
  }

  lemma {:induction false} PhaseMeans<T>(trace: Trace<T>, n: Names)
    requires WellNamed(trace, n)
    ensures PhaseOf(Later(), trace, n) ==
      if Opened(trace, n) then Open(if Cleared(trace, n) then None else LastCarried(trace, n))
      else Early(LastCarried(trace, n))
    ensures Cleared(trace, n) ==> Opened(trace, n)
  {
    if trace != [] {
      var before, e := trace[..|trace| - 1], trace[|trace| - 1];
      FewerAreWellNamed(trace, n);
      PhaseMeans(before, n);
      OpenedGrows(trace, n);
      if OpensIt(e, n) {
        OpensOnce(trace, n);
      }
    }
  }

  lemma {:induction false} OpenedGrows<T>(trace: Trace<T>, n: Names)
    requires trace != []
    ensures Opened(trace, n) <==> Opened(trace[..|trace| - 1], n) || OpensIt(trace[|trace| - 1], n)
  {
    var before := trace[..|trace| - 1];
    if Opened(before, n) {
      var k :| 0 <= k < |before| && OpensIt(before[k], n);
      assert OpensIt(trace[k], n);
    }
    if Opened(trace, n) && !OpensIt(trace[|trace| - 1], n) {
      var k :| 0 <= k < |trace| && OpensIt(trace[k], n);
      assert OpensIt(before[k], n);
    }
  }

  /**
   * A transport ends up with its last carried value for every interleaving, exactly unless a
   * later event after the summary came without one: that clears what was there.
   */
  lemma {:induction false} LastValueIsAttached<T>(trace: Trace<T>, n: Names)
    requires WellNamed(trace, n) && Opened(trace, n)
    ensures PlaceOf(trace, n) < |Run(Later(), trace).values|
    ensures var attached := Run(Later(), trace).values[PlaceOf(trace, n)];
      && attached == (if Cleared(trace, n) then None else LastCarried(trace, n))
      && (attached == LastCarried(trace, n) <==> !Cleared(trace, n) || LastCarried(trace, n).None?)
  {
    SlotFollowsItsEvents(Later(), trace, n);
    PhaseMeans(trace, n);
  }

  /** A summary, a status, and an event without one: the status is gone. */
  lemma {:induction false} LaterEventClears(n: Names, ids: Ids, value: nat)
    requires Answers(ids, n) && n.summary == Some(n.attempt)
    ensures var trace: Trace<nat> := [(ids, Opens), (ids, Carries(Some(value))), (ids, Carries(None))];
      && WellNamed(trace, n) && LastCarried(trace, n) == Some(value)
      && Run(Later(), trace).values == [None]
  {
    var trace: Trace<nat> := [(ids, Opens), (ids, Carries(Some(value))), (ids, Carries(None))];
    ThreeEvents(Later(), trace);
  }

  lemma {:induction false} ThreeEvents<T>(join: Join<T>, trace: Trace<T>)
    requires |trace| == 3
    ensures var one := Step(join, Slots(map[], map[], []), trace[0].0, trace[0].1);
      Run(join, trace) == Step(join, Step(join, one, trace[1].0, trace[1].1), trace[2].0, trace[2].1)
  {
    var two, one := trace[..2], trace[..1];
    assert two[..1] == one && one[..0] == [] && trace[..2] == two;
    assert Run(join, one) == Step(join, Slots(map[], map[], []), trace[0].0, trace[0].1);
  }

  /** Two early response identifiers and then the summary: only the second is kept. */
  lemma {:induction false} EarlyIdsOverwrite(n: Names, ids: Ids, a: string, b: string)
    requires Answers(ids, n) && n.summary == Some(n.attempt)
    ensures var trace: Trace<set<string>> := [(ids, Carries(Some({a}))), (ids, Carries(Some({b}))), (ids, Opens)];
      WellNamed(trace, n) && Run(Gathered(), trace).values == [Some({b})]
  {
    var trace: Trace<set<string>> := [(ids, Carries(Some({a}))), (ids, Carries(Some({b}))), (ids, Opens)];
    ThreeEvents(Gathered(), trace);
  }

  // ------------------------------------------ the identifiers that remain

  /** A response event of this transport that carries `x`. */
  predicate Brings(e: (Ids, Signal<set<string>>), n: Names, x: string) {
    e.1.Carries? && e.1.value.Some? && Answers(e.0, n) && x in e.1.value.value
  }

  function Members(o: Option<set<string>>): set<string> { if o.Some? then o.value else {} }

  /** What the last response event before the summary carried. */
  function LastEarly(trace: Trace<set<string>>, n: Names): set<string> {
    if trace == [] then {}
    else
      var before, e := trace[..|trace| - 1], trace[|trace| - 1];
      if e.1.Carries? && e.1.value.Some? && Answers(e.0, n) && !Opened(before, n) then e.1.value.value
      else LastEarly(before, n)
  }

  /** All that response events after the summary carried. */
  function LaterIds(trace: Trace<set<string>>, n: Names): set<string> {
    if trace == [] then {}
    else
      var before, e := trace[..|trace| - 1], trace[|trace| - 1];
      LaterIds(before, n)
      + if e.1.Carries? && e.1.value.Some? && Answers(e.0, n) && Opened(before, n) then e.1.value.value else {}
  }

  lemma {:induction false} LaterIdsMean(trace: Trace<set<string>>, n: Names, x: string)
    ensures x in LaterIds(trace, n) <==> exists j :: 0 <= j < |trace| && Opened(trace[..j], n) && Brings(trace[j], n, x)
  {
    if trace != [] {
      var before := trace[..|trace| - 1];
      LaterIdsMean(before, n, x);
      if x in LaterIds(before, n) {
        var j :| 0 <= j < |before| && Opened(before[..j], n) && Brings(before[j], n, x);
        assert trace[..j] == before[..j] && trace[j] == before[j];
      }
      if exists j :: 0 <= j < |trace| && Opened(trace[..j], n) && Brings(trace[j], n, x) {
        var j :| 0 <= j < |trace| && Opened(trace[..j], n) && Brings(trace[j], n, x);
        if j < |before| {
          assert trace[..j] == before[..j] && trace[j] == before[j];
        }
      }
    }
  }

  /** The closed form of the identifiers a transport holds. */
  lemma {:induction false} GatheredMeans(trace: Trace<set<string>>, n: Names)
    ensures var phase := PhaseOf(Gathered(), trace, n);
      if Opened(trace, n) then phase.Open? && Members(phase.value) == LastEarly(trace, n) + LaterIds(trace, n)
      else phase.Early? && Members(phase.latest) == LastEarly(trace, n) && LaterIds(trace, n) == {}
  {
    if trace != [] {
      GatheredMeans(trace[..|trace| - 1], n);
      OpenedGrows(trace, n);
    }
  }

  /** Every identifier that a response event of this transport carried is held. */
  ghost predicate HoldsAll(trace: Trace<set<string>>, n: Names, held: set<string>) {
    forall k, x :: 0 <= k < |trace| && Brings(trace[k], n, x) ==> x in held
  }

  /** Every early identifier is in the last early event or comes again after the summary. */
  ghost predicate EarlyComeAgain(trace: Trace<set<string>>, n: Names) {
    forall k, x :: 0 <= k < |trace| && Brings(trace[k], n, x) && !Opened(trace[..k], n) ==>
      || x in LastEarly(trace, n)
      || exists j :: 0 <= j < |trace| && Opened(trace[..j], n) && Brings(trace[j], n, x)
  }

  lemma {:induction false} NothingIsLost(trace: Trace<set<string>>, n: Names)
    ensures HoldsAll(trace, n, LastEarly(trace, n) + LaterIds(trace, n)) <==> EarlyComeAgain(trace, n)
  {
    var held := LastEarly(trace, n) + LaterIds(trace, n);
    forall k, x | 0 <= k < |trace| && Brings(trace[k], n, x)
      ensures x in held <==>
        || x in LastEarly(trace, n)
        || exists j :: 0 <= j < |trace| && Opened(trace[..j], n) && Brings(trace[j], n, x)
      ensures Opened(trace[..k], n) ==> x in held
    {
      LaterIdsMean(trace, n, x);
    }
  }

  // ------------------------------------------------------------ ingestion

  const MAX_CORRELATION_ITEMS: nat := 100_000
  const MAX_CORRELATION_INDEX_ENTRIES: nat := 200_000

  datatype State = State(
    anchors: seq<Anchor>, transports: seq<Transport>, indices: map<Key, nat>,
    pendingStatus: map<Key, nat>, pendingIds: map<Key, set<string>>, pendingTerminal: map<Key, TerminalState>,
    scopes: map<string, Ids>, existing: bool)

  /** An event that creates a transport. */
  predicate IsSummary(e: Event) { e.role.RequestSummary? && e.ids.inference.Some? }

  function StatusSignal(e: Event): Signal<nat> {
    if IsSummary(e) then Opens else if e.role.ResponseStarted? then Carries(e.role.status) else Nothing
  }

  function TerminalSignal(e: Event): Signal<TerminalState> {
    if IsSummary(e) then Opens else if e.role.AttemptFinished? then Carries(e.role.terminal) else Nothing
  }

  function IdSignal(e: Event): Signal<set<string>> {
    if IsSummary(e) then Opens
    else if e.role.SseEvent? && e.role.responseId.Some? && e.role.responseId.value != "" then Carries(Some({e.role.responseId.value}))
    else Nothing
  }

  function IdTrace(log: Log): Trace<set<string>> {
    seq(|log|, i requires 0 <= i < |log| => (log[i].ids, IdSignal(log[i])))
  }

  function StatusTrace(log: Log): Trace<nat> {
    seq(|log|, i requires 0 <= i < |log| => (log[i].ids, StatusSignal(log[i])))
  }

  function TerminalTrace(log: Log): Trace<TerminalState> {
    seq(|log|, i requires 0 <= i < |log| => (log[i].ids, TerminalSignal(log[i])))
  }

  function Statuses(ts: seq<Transport>): seq<Option<nat>> {
    seq(|ts|, i requires 0 <= i < |ts| => ts[i].status)
  }

  function Terminals(ts: seq<Transport>): seq<Option<TerminalState>> {
    seq(|ts|, i requires 0 <= i < |ts| => ts[i].terminal)
  }

  function IdLists(ts: seq<Transport>): seq<Option<set<string>>> {
    seq(|ts|, i requires 0 <= i < |ts| => HeldIds(ts[i]))
  }

  function StatusSlots(s: State): Slots<nat> {
    Slots(s.indices, s.pendingStatus, Statuses(s.transports))
  }

  function TerminalSlots(s: State): Slots<TerminalState> {
    Slots(s.indices, s.pendingTerminal, Terminals(s.transports))
  }

  function HeldIds(t: Transport): Option<set<string>> { if t.responseIds == {} then None else Some(t.responseIds) }

  function IdSlots(s: State): Slots<set<string>> {
    Slots(s.indices, s.pendingIds, IdLists(s.transports))
  }

  /** What a transport is before any response: the part its summary fixes. */
  function Identity(t: Transport): Transport { t.(responseIds := {}, status := None, terminal := None) }

  function SummaryOf(e: Event): Transport
    requires IsSummary(e)
  {
    Transport(e.sequence, e.time, e.ids.inference.value, e.ids.attempt, e.ids.session, {},
              e.role.model, e.role.fingerprint, None, None)
  }

  predicate IsAnchor(e: Event) {
    && !e.role.CorrelationOutput? && e.anchor.Some?
    && (e.ids.session.Some? || e.ids.turn.Some? || e.ids.inference.Some?)
  }

  function AnchorOf(e: Event): Anchor
    requires e.anchor.Some?
  {
    Anchor(e.anchor.value, e.sequence, e.time, e.ids, e.anchorModel)
  }

  function Anchors(log: Log): seq<Anchor> {
    if log == [] then []
    else Anchors(log[..|log| - 1]) + if IsAnchor(log[|log| - 1]) then [AnchorOf(log[|log| - 1])] else []
  }

  function Summaries(log: Log): seq<Transport> {
    if log == [] then []
    else Summaries(log[..|log| - 1]) + if IsSummary(log[|log| - 1]) then [SummaryOf(log[|log| - 1])] else []
  }

  /** The first session or hook event of a session sets its scope. */
  predicate OpensScope(scopes: map<string, Ids>, e: Event) {
    !e.role.CorrelationOutput? && e.agent && e.ids.session.Some? && e.ids.session.value !in scopes
  }

  function Scopes(log: Log): map<string, Ids> {
    if log == [] then map[]
    else
      var before, e := Scopes(log[..|log| - 1]), log[|log| - 1];
      if OpensScope(before, e) then before[e.ids.session.value := e.ids] else before
  }

  predicate HasOutput(log: Log) { exists k :: 0 <= k < |log| && log[k].role.CorrelationOutput? }

  /** All that a log means to the correlator. */
  datatype Meaning = Meaning(
    status: Slots<nat>, terminal: Slots<TerminalState>, ids: Slots<set<string>>,
    summaries: seq<Transport>, anchors: seq<Anchor>, scopes: map<string, Ids>, existing: bool)

  /** One event's contribution. */
  function Meant(m: Meaning, e: Event): Meaning {
    Meaning(
      Step(Later(), m.status, e.ids, StatusSignal(e)), Step(Later(), m.terminal, e.ids, TerminalSignal(e)),
      Step(Gathered(), m.ids, e.ids, IdSignal(e)),
      m.summaries + (if IsSummary(e) then [SummaryOf(e)] else []),
      m.anchors + (if IsAnchor(e) then [AnchorOf(e)] else []),
      if OpensScope(m.scopes, e) then m.scopes[e.ids.session.value := e.ids] else m.scopes,
      m.existing || e.role.CorrelationOutput?)
  }

  function MeaningOf(log: Log): Meaning {
    if log == [] then Meaning(Slots(map[], map[], []), Slots(map[], map[], []), Slots(map[], map[], []), [], [], map[], false)
    else Meant(MeaningOf(log[..|log| - 1]), log[|log| - 1])
  }

  lemma {:induction false} MeaningGrows(log: Log, e: Event)
    ensures MeaningOf(log + [e]) == Meant(MeaningOf(log), e)
  {
    assert (log + [e])[..|log|] == log;
  }

  /** Part by part: what the slots, the anchors, the transports and the scopes of a log are. */
  lemma {:induction false} MeaningIs(log: Log)
    ensures MeaningOf(log) == Meaning(
      Run(Later(), StatusTrace(log)), Run(Later(), TerminalTrace(log)), Run(Gathered(), IdTrace(log)),
      Summaries(log), Anchors(log), Scopes(log), HasOutput(log))
  {
    if log != [] {
      MeaningIs(log[..|log| - 1]);
      TracesGrow(log);
      OutputGrows(log);
    }
  }

  lemma {:induction false} OutputGrows(log: Log)
    requires log != []
    ensures HasOutput(log) <==> HasOutput(log[..|log| - 1]) || log[|log| - 1].role.CorrelationOutput?
  {
    var before := log[..|log| - 1];
    if HasOutput(before) {
      var k :| 0 <= k < |before| && before[k].role.CorrelationOutput?;
      assert log[k].role.CorrelationOutput?;
    }
    if HasOutput(log) && !log[|log| - 1].role.CorrelationOutput? {
      var k :| 0 <= k < |log| && log[k].role.CorrelationOutput?;
      assert before[k].role.CorrelationOutput?;
    }
  }

  /** The state holds what is meant. */
  predicate Holds(s: State, m: Meaning) {
    && StatusSlots(s) == m.status && TerminalSlots(s) == m.terminal && IdSlots(s) == m.ids
    && s.anchors == m.anchors && s.scopes == m.scopes && s.existing == m.existing
    && |s.transports| == |m.summaries|
    && (forall i :: 0 <= i < |s.transports| ==> Identity(s.transports[i]) == m.summaries[i])
  }

  predicate Ingested(s: State, log: Log) { Holds(s, MeaningOf(log)) }

  // The pending maps, as the code works them.

  method TakePending<T>(pending: map<Key, T>, ids: Ids) returns (value: Option<T>, rest: map<Key, T>)
    ensures value == Find(pending, ids) && rest == pending - KeysOf(ids)
  {
    value, rest := None, pending;
    if ids.attempt.Some? && AttemptKey(ids.attempt.value) in rest {
      value := Some(rest[AttemptKey(ids.attempt.value)]);
      rest := rest - {AttemptKey(ids.attempt.value)};
    }
    if value.None? && ids.inference.Some? && InferenceKey(ids.inference.value) in rest {
      value := Some(rest[InferenceKey(ids.inference.value)]);
      rest := rest - {InferenceKey(ids.inference.value)};
    }
    if ids.attempt.Some? {
      rest := rest - {AttemptKey(ids.attempt.value)};
    }
    if ids.inference.Some? {
      rest := rest - {InferenceKey(ids.inference.value)};
    }
  }

  method RememberPending<T>(pending: map<Key, T>, ids: Ids, value: T) returns (more: map<Key, T>)
    ensures more.Keys == pending.Keys + KeysOf(ids)
    ensures forall k :: k in more ==> more[k] == if k in KeysOf(ids) then value else pending[k]
    ensures more == Put(pending, ids, value)
  {
    more := pending;
    if ids.attempt.Some? {
      more := more[AttemptKey(ids.attempt.value) := value];
    }
    if ids.inference.Some? {
      more := more[InferenceKey(ids.inference.value) := value];
    }
  }

  predicate WithinLimits(s: State) {
    && |s.anchors| <= MAX_CORRELATION_ITEMS && |s.transports| <= MAX_CORRELATION_ITEMS
    && |s.indices| <= MAX_CORRELATION_INDEX_ENTRIES && |s.pendingStatus| <= MAX_CORRELATION_INDEX_ENTRIES
    && |s.pendingTerminal| <= MAX_CORRELATION_INDEX_ENTRIES && |s.pendingIds| <= MAX_CORRELATION_INDEX_ENTRIES
    && |s.scopes| <= MAX_CORRELATION_ITEMS
  }

  ghost predicate Inside(s: State) {
    && (forall k :: k in s.indices ==> s.indices[k] < |s.transports|)
    && (forall k :: k in s.pendingIds ==> s.pendingIds[k] != {})
  }

  /** How one event changes the transports, seen through the two slots and their identities. */
  ghost predicate Moves(s: State, e: Event, t: State) {
    && StatusSlots(t) == Step(Later(), StatusSlots(s), e.ids, StatusSignal(e))
    && TerminalSlots(t) == Step(Later(), TerminalSlots(s), e.ids, TerminalSignal(e))
    && IdSlots(t) == Step(Gathered(), IdSlots(s), e.ids, IdSignal(e))
    && |t.transports| == |s.transports| + (if IsSummary(e) then 1 else 0)
    && (forall i :: 0 <= i < |s.transports| ==> Identity(t.transports[i]) == Identity(s.transports[i]))
    && (IsSummary(e) ==> Identity(t.transports[|s.transports|]) == SummaryOf(e))
  }

  ghost predicate Takes(s: State, e: Event, t: State) {
    Moves(s, e, t) && t.anchors == s.anchors && t.scopes == s.scopes && t.existing == s.existing
  }

  lemma {:induction false} HoldsStep(s: State, m: Meaning, e: Event, t: State)
    requires Holds(s, m) && Moves(s, e, t)
    requires t.anchors == Meant(m, e).anchors && t.scopes == Meant(m, e).scopes && t.existing == Meant(m, e).existing
    ensures Holds(t, Meant(m, e))
  {
  }

  /** A transport replaced by another. */
  lemma {:induction false} Replaced(ts: seq<Transport>, i: nat, t: Transport)
    requires i < |ts|
    ensures Statuses(ts[i := t]) == Statuses(ts)[i := t.status]
    ensures Terminals(ts[i := t]) == Terminals(ts)[i := t.terminal]
    ensures IdLists(ts[i := t]) == IdLists(ts)[i := HeldIds(t)]
    ensures t.status == ts[i].status ==> Statuses(ts[i := t]) == Statuses(ts)
    ensures t.terminal == ts[i].terminal ==> Terminals(ts[i := t]) == Terminals(ts)
    ensures t.responseIds == ts[i].responseIds ==> IdLists(ts[i := t]) == IdLists(ts)
  {
  }

  lemma {:induction false} Appended(ts: seq<Transport>, t: Transport)
    ensures Statuses(ts + [t]) == Statuses(ts) + [t.status]
    ensures Terminals(ts + [t]) == Terminals(ts) + [t.terminal]
    ensures IdLists(ts + [t]) == IdLists(ts) + [HeldIds(t)]
  {
  }

  class Ingestion {
    var s: State

    constructor ()
      ensures Holds(s, MeaningOf([])) && Inside(s) && WithinLimits(s)
    {
      s := State([], [], map[], map[], map[], map[], map[], false);
    }

    method Open(event: Event)
      requires IsSummary(event) && Inside(s)
      modifies this
      ensures Takes(old(s), event, s) && Inside(s)
    {
      var status, pendingStatus := TakePending(s.pendingStatus, event.ids);
      var responseIds, pendingIds := TakePending(s.pendingIds, event.ids);
      var terminal, pendingTerminal := TakePending(s.pendingTerminal, event.ids);
      var transport := SummaryOf(event).(
        responseIds := (if responseIds.Some? then responseIds.value else {}), status := status, terminal := terminal);
      Appended(s.transports, transport);
      s := s.(transports := s.transports + [transport], indices := Put(s.indices, event.ids, |s.transports|),
              pendingStatus := pendingStatus, pendingIds := pendingIds, pendingTerminal := pendingTerminal);
    }

    method Started(event: Event)
      requires event.role.ResponseStarted? && Inside(s)
      modifies this
      ensures Takes(old(s), event, s) && Inside(s)
    {
      var index := Indexed(s.indices, event.ids);
      if index.Some? {
        var t := s.transports[index.value].(status := event.role.status);
        Replaced(s.transports, index.value, t);
        s := s.(transports := s.transports[index.value := t]);
      } else if event.role.status.Some? {
        var pending := RememberPending(s.pendingStatus, event.ids, event.role.status.value);
        s := s.(pendingStatus := pending);
      }
    }

    /** An early identifier replaces the ones that waited before it. */
    method ResponseId(event: Event)
      requires event.role.SseEvent? && Inside(s)
      modifies this
      ensures Takes(old(s), event, s) && Inside(s)
    {
      if event.role.responseId.None? || event.role.responseId == Some("") {
        return;
      }
      var index, id := Indexed(s.indices, event.ids), event.role.responseId.value;
      if index.Some? {
        var held := s.transports[index.value].responseIds;
        var t := s.transports[index.value].(responseIds := held + {id});
        assert held == {} ==> held + {id} == {id};
        Replaced(s.transports, index.value, t);
        s := s.(transports := s.transports[index.value := t]);
      } else {
        var pending := RememberPending(s.pendingIds, event.ids, {id});
        s := s.(pendingIds := pending);
      }
    }

    method Finished(event: Event)
      requires event.role.AttemptFinished? && Inside(s)
      modifies this
      ensures Takes(old(s), event, s) && Inside(s)
    {
      var index := Indexed(s.indices, event.ids);
      if index.Some? {
        var t := s.transports[index.value].(terminal := event.role.terminal);
        Replaced(s.transports, index.value, t);
        s := s.(transports := s.transports[index.value := t]);
      } else if event.role.terminal.Some? {
        var pending := RememberPending(s.pendingTerminal, event.ids, event.role.terminal.value);
        s := s.(pendingTerminal := pending);
      }
    }

    method IngestTransport(event: Event)
      requires Inside(s)
      modifies this
      ensures Takes(old(s), event, s) && Inside(s)
    {
      match event.role {
        case RequestSummary(_, _) =>
          if event.ids.inference.Some? {
            Open(event);
          }
        case ResponseStarted(_) => Started(event);
        case SseEvent(_) => ResponseId(event);
        case AttemptFinished(_) => Finished(event);
        case _ =>
      }
    }

    method IngestContext(event: Event)
      requires !event.role.CorrelationOutput?
      modifies this
      ensures s == old(s).(
        anchors := old(s).anchors + (if IsAnchor(event) then [AnchorOf(event)] else []),
        scopes := if OpensScope(old(s).scopes, event) then old(s).scopes[event.ids.session.value := event.ids] else old(s).scopes)
    {
      if event.anchor.Some? && (event.ids.session.Some? || event.ids.turn.Some? || event.ids.inference.Some?) {
        s := s.(anchors := s.anchors + [AnchorOf(event)]);
      }
      if event.agent && event.ids.session.Some? && event.ids.session.value !in s.scopes {
        s := s.(scopes := s.scopes[event.ids.session.value := event.ids]);
      }
    }

    method Ingest(event: Event, ghost m: Meaning)
      requires Holds(s, m) && Inside(s)
      modifies this
      ensures Holds(s, Meant(m, event)) && Inside(s)
    {
      ghost var before := s;
      if event.role.CorrelationOutput? {
        s := s.(existing := true);
      } else {
        IngestTransport(event);
        IngestContext(event);
      }
      HoldsStep(before, m, event, s);
    }

    method IngestAt(log: Log, ghost ms: seq<Meaning>, i: nat)
      requires Chain(ms, log) && i < |log| && Holds(s, ms[i]) && Inside(s)
      modifies this
      ensures Holds(s, ms[i + 1]) && Inside(s)
    {
      assert Linked(ms, log, i);
      Ingest(log[i], ms[i]);
    }
  }

  /** What each prefix of the log means. */
  function Meanings(log: Log): seq<Meaning> {
    seq(|log| + 1, i requires 0 <= i <= |log| => MeaningOf(log[..i]))
  }

  predicate Linked(ms: seq<Meaning>, log: Log, i: nat)
    requires i < |log| && |ms| == |log| + 1
  {
    ms[i + 1] == Meant(ms[i], log[i])
  }

  predicate Chain(ms: seq<Meaning>, log: Log) {
    |ms| == |log| + 1 && ms[0] == MeaningOf([]) && forall i: nat :: i < |log| ==> Linked(ms, log, i)
  }

  lemma {:induction false} MeaningsChain(log: Log)
    ensures Chain(Meanings(log), log)
  {
    forall i: nat | i < |log| ensures Linked(Meanings(log), log, i) {
      assert log[..i + 1] == log[..i] + [log[i]];
      MeaningGrows(log[..i], log[i]);
    }
  }

  /** Reads the log event by event, and stops short exactly when an index outgrows its limit. */
  method IngestChain(log: Log, ghost ms: seq<Meaning>) returns (ok: bool, s: State, n: nat)
    requires Chain(ms, log)
    ensures n <= |log| && Holds(s, ms[n]) && ok == WithinLimits(s) && (ok ==> n == |log|)
  {
    var ingestion := new Ingestion();
    n := 0;
    while n < |log|
      invariant n <= |log| && fresh(ingestion)
      invariant Holds(ingestion.s, ms[n]) && Inside(ingestion.s) && WithinLimits(ingestion.s)
    {
      ingestion.IngestAt(log, ms, n);
      n := n + 1;
      if !WithinLimits(ingestion.s) {
        return false, ingestion.s, n;
      }
    }
    return true, ingestion.s, n;
  }

  method IngestLog(log: Log) returns (ok: bool, s: State, n: nat)
    ensures n <= |log| && Ingested(s, log[..n]) && ok == WithinLimits(s) && (ok ==> n == |log|)
  {
    MeaningsChain(log);
    ok, s, n := IngestChain(log, Meanings(log));
  }

  // ----------------------------------------------- a transport in the log

  lemma {:induction false} TracesGrow(log: Log)
    requires log != []
    ensures var before, e := log[..|log| - 1], log[|log| - 1];
      && StatusTrace(log)[..|log| - 1] == StatusTrace(before) && TerminalTrace(log)[..|log| - 1] == TerminalTrace(before)
      && IdTrace(log)[..|log| - 1] == IdTrace(before)
      && StatusTrace(log)[|log| - 1] == (e.ids, StatusSignal(e)) && TerminalTrace(log)[|log| - 1] == (e.ids, TerminalSignal(e))
      && IdTrace(log)[|log| - 1] == (e.ids, IdSignal(e))
  {
  }

  lemma {:induction false} OnePlacePerSummary(log: Log)
    ensures OpenedCount(StatusTrace(log)) == OpenedCount(TerminalTrace(log)) == OpenedCount(IdTrace(log)) == |Summaries(log)|
  {
    if log != [] {
      OnePlacePerSummary(log[..|log| - 1]);
      TracesGrow(log);
    }
  }

  /** The place a summary takes is the same for all slots, and is its transport's. */
  lemma {:induction false} PlaceIsItsTransport(log: Log, n: Names)
    requires Opened(StatusTrace(log), n)
    ensures Opened(TerminalTrace(log), n) && Opened(IdTrace(log), n)
    ensures PlaceOf(StatusTrace(log), n) == PlaceOf(TerminalTrace(log), n) == PlaceOf(IdTrace(log), n) < |Summaries(log)|
    ensures Summaries(log)[PlaceOf(StatusTrace(log), n)].inference == n.inference
  {
    var before, e := log[..|log| - 1], log[|log| - 1];
    TracesGrow(log);
    OpenedGrows(StatusTrace(log), n);
    OpenedGrows(TerminalTrace(log), n);
    OpenedGrows(IdTrace(log), n);
    OnePlacePerSummary(before);
    if !OpensIt(StatusTrace(log)[|log| - 1], n) {
      PlaceIsItsTransport(before, n);
    }
  }

  /**
   * However the log interleaves them, the transport of an inference has the status and the
   * terminal state its own response events leave: the last one carried, or none once a
   * later event after the summary came without one.
   */
  lemma {:induction false} TransportHasItsLastValues(s: State, log: Log, n: Names)
    requires Ingested(s, log) && Opened(StatusTrace(log), n)
    requires WellNamed(StatusTrace(log), n) && WellNamed(TerminalTrace(log), n)
    ensures var i := PlaceOf(StatusTrace(log), n);
      && i < |s.transports| && s.transports[i].inference == n.inference
      && s.transports[i].status ==
           (if Cleared(StatusTrace(log), n) then None else LastCarried(StatusTrace(log), n))
      && s.transports[i].terminal ==
           (if Cleared(TerminalTrace(log), n) then None else LastCarried(TerminalTrace(log), n))
  {
    var i := PlaceOf(StatusTrace(log), n);
    MeaningIs(log);
    PlaceIsItsTransport(log, n);
    LastValueIsAttached(StatusTrace(log), n);
    LastValueIsAttached(TerminalTrace(log), n);
    assert Identity(s.transports[i]) == Summaries(log)[i];
    assert StatusSlots(s).values[i] == s.transports[i].status;
    assert TerminalSlots(s).values[i] == s.transports[i].terminal;
  }

  /**
   * And the response identifiers its own events leave: what the last early event carried and
   * all that later ones did. None is lost exactly when every early one is in the last early
   * event or comes again after the summary.
   */
  lemma {:induction false} TransportHasItsIds(s: State, log: Log, n: Names)
    requires Ingested(s, log) && Opened(StatusTrace(log), n) && WellNamed(IdTrace(log), n)
    ensures var i, trace := PlaceOf(IdTrace(log), n), IdTrace(log);
      && i < |s.transports| && s.transports[i].inference == n.inference
      && s.transports[i].responseIds == LastEarly(trace, n) + LaterIds(trace, n)
      && (HoldsAll(trace, n, s.transports[i].responseIds) <==> EarlyComeAgain(trace, n))
  {
    var i := PlaceOf(IdTrace(log), n);
    MeaningIs(log);
    PlaceIsItsTransport(log, n);
    SlotFollowsItsEvents(Gathered(), IdTrace(log), n);
    OpenedIsOpen(Gathered(), IdTrace(log), n);
    assert Identity(s.transports[i]) == Summaries(log)[i];
    assert IdSlots(s).values[i] == HeldIds(s.transports[i]);
    GatheredMeans(IdTrace(log), n);
    NothingIsLost(IdTrace(log), n);
  }

  lemma {:induction false} OpenedIsOpen<T>(join: Join<T>, trace: Trace<T>, n: Names)
    requires Opened(trace, n)
    ensures PhaseOf(join, trace, n).Open?
  {
    OpenedGrows(trace, n);
    if Opened(trace[..|trace| - 1], n) {
      OpenedIsOpen(join, trace[..|trace| - 1], n);
    }
  }
}
