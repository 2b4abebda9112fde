/**
The event-log summary (`src/inspect.rs`): one pass over the log, folded into counters and
sets, and the completeness flags computed from them. The reference says what each field
means for the log as a whole; the pass is proved to compute it. Events carry only the
fields the pass reads.
*/
module Summary {
  import opened Basics
  import opened Options

  const MAX_TRACKED_IDENTIFIERS: nat := 100_000
  const MAX_TRACKED_BLOB_REFERENCES: nat := 250_000
  const MAX_TRACKED_PROTOCOLS: nat := 128
  const MAX_TRACKED_EGRESS_CLASSES: nat := 8

  // ----------------------------------------------------------------- events

  datatype Source = Proxy | Process | Correlation | Hook(name: string) | OtherSource(name: string)

  datatype Kind =
    | TransportRequestStarted | TransportResponseStarted | TransportAttemptFinished
    | RequestBodyFinished | RequestBodyChunk | ResponseBodyChunk
    | WebsocketConnectionFinished | WebsocketFrame
    | LogicalInferenceRequest | SseEvent | ModelCallStarted | NetworkConnectionObserved
    | InferenceCorrelation | InferenceCorrelationUnresolved
    | OtherKind(name: string)

  datatype TrafficClass =
    | ModelRecorder | ModelBypass | Local | Auth | Telemetry | Update | OtherClass | UnknownExternal
    | Model | Unlisted(name: string)

  /** `Udp` is any protocol name that begins with those letters. */
  datatype Protocol = Websocket | UnknownProtocol | Udp(rest: string) | NamedProtocol(name: string)

  datatype UpstreamProtocol = Http09 | Http10 | Http11 | Http2 | Http3 | UnknownUpstream | UnlistedUpstream(name: string)

  /** A key of the protocol counts: an attempt's own protocol, or its upstream's. */
  datatype ProtocolName = Downstream(protocol: Protocol) | Upstream(upstream: UpstreamProtocol)

  datatype Direction = ClientToUpstream | UpstreamToClient

  datatype Fields = Fields(
    trafficClass: Option<TrafficClass>, protocol: Option<Protocol>, upstreamProtocol: Option<UpstreamProtocol>,
    observedSize: Option<nat>, capturedSize: Option<nat>, direction: Option<Direction>, captureFailed: Option<bool>,
    inputTokens: Option<nat>, outputTokens: Option<nat>, status: Option<nat>,
    model: Option<string>, unresolvedReferences: Option<nat>, scanTruncated: Option<bool>, scanInconclusive: Option<bool>,
    uniqueRetryChain: bool, members: seq<string>)

  const NO_FIELDS := Fields(None, None, None, None, None, None, None, None, None, None, None, None, None, None, false, [])

  /** The identity and size of the blob an event refers to. */
  datatype Raw = Raw(identity: string, size: nat)

  datatype Event = Event(
    sequence: nat, source: Source, kind: Kind, terminal: Option<TerminalState>,
    attempt: Option<string>, inference: Option<string>, connection: Option<string>, normalized: Option<Fields>,
    raw: Option<Raw>)

  type Log = seq<Event>

  function Normalized(e: Event): Fields { if e.normalized.Some? then e.normalized.value else NO_FIELDS }

  function OrElse<T>(o: Option<T>, otherwise: T): T { if o.Some? then o.value else otherwise }

  // -------------------------------------------------- sets and counts of a log

  /** The identifiers of the events that satisfy `p`. */
  function Ids<T(!new)>(log: Log, p: Event -> bool, id: Event -> T): set<T> {
    set i | 0 <= i < |log| && p(log[i]) :: id(log[i])
  }

  function Count(log: Log, p: Event -> bool): nat {
    if log == [] then 0 else Count(log[..|log| - 1], p) + if p(log[|log| - 1]) then 1 else 0
  }

  function Sum(log: Log, f: Event -> nat): nat {
    if log == [] then 0 else Sum(log[..|log| - 1], f) + f(log[|log| - 1])
  }

  lemma {:induction false} IdsGrow<T(!new)>(log: Log, e: Event, p: Event -> bool, id: Event -> T)
    ensures Ids(log + [e], p, id) == Ids(log, p, id) + if p(e) then {id(e)} else {}
  {
    var more := log + [e];
    forall i | 0 <= i < |log| && p(log[i]) ensures id(log[i]) in Ids(more, p, id) {
      assert more[i] == log[i];
    }
    if p(e) { assert more[|log|] == e; }
  }

  lemma {:induction false} CountGrows(log: Log, e: Event, p: Event -> bool)
    ensures Count(log + [e], p) == Count(log, p) + if p(e) then 1 else 0
  {
    assert (log + [e])[..|log|] == log;
  }

  lemma {:induction false} SumGrows(log: Log, e: Event, f: Event -> nat)
    ensures Sum(log + [e], f) == Sum(log, f) + f(e)
  {
    assert (log + [e])[..|log|] == log;
  }

  /** Unsigned 64-bit addition that stops at the maximum. */
  function SaturatingAdd(a: nat, b: nat): nat { Saturated(a + b) }

  function Saturated(n: nat): nat { if n <= U64_MAX then n else U64_MAX }

  // ------------------------------------------------ what the summary means

  predicate StartsModelInference(e: Event) {
    && e.source.Proxy? && e.kind.TransportRequestStarted?
    && Normalized(e).trafficClass == Some(Model) && e.inference.Some?
  }

  predicate StartsModelAttempt(e: Event) { StartsModelInference(e) && e.attempt.Some? }

  function ProtocolOf(e: Event): Protocol { OrElse(Normalized(e).protocol, UnknownProtocol) }

  predicate StartsWebsocket(e: Event) { StartsModelAttempt(e) && ProtocolOf(e).Websocket? }

  function Attempt(e: Event): string { OrElse(e.attempt, "") }

  function Inference(e: Event): string { OrElse(e.inference, "") }

  function ModelAttempts(log: Log): set<string> { Ids(log, StartsModelAttempt, Attempt) }

  function WebsocketAttempts(log: Log): set<string> { Ids(log, StartsWebsocket, Attempt) }

  function ProtocolKey(e: Event): Option<ProtocolName> {
    if StartsModelAttempt(e) then Some(Downstream(ProtocolOf(e)))
    else if e.source.Proxy? && e.kind.TransportResponseStarted? && Normalized(e).upstreamProtocol.Some?
            && !Normalized(e).upstreamProtocol.value.UnlistedUpstream?
    then Some(Upstream(Normalized(e).upstreamProtocol.value))
    else None
  }

  function ProtocolCount(log: Log, key: ProtocolName): nat { Count(log, e => ProtocolKey(e) == Some(key)) }

  function Bump<K>(counts: map<K, nat>, key: K): map<K, nat> {
    counts[key := (if key in counts then counts[key] else 0) + 1]
  }

  function Protocols(log: Log): map<ProtocolName, nat> {
    if log == [] then map[]
    else
      var before, key := Protocols(log[..|log| - 1]), ProtocolKey(log[|log| - 1]);
      if key.Some? then Bump(before, key.value) else before
  }

  lemma {:induction false} ProtocolsMean(log: Log, k: ProtocolName)
    ensures k in Protocols(log) <==> ProtocolCount(log, k) > 0
    ensures k in Protocols(log) ==> Protocols(log)[k] == ProtocolCount(log, k)
  {
    if log != [] {
      var before, e := log[..|log| - 1], log[|log| - 1];
      assert log == before + [e];
      ProtocolsMean(before, k);
      CountGrows(before, e, e => ProtocolKey(e) == Some(k));
    }
  }

  /** What one event says about the payloads of its attempt. */
  datatype Verdict = CompleteRequest | IncompleteRequest | CompleteResponse | IncompleteResponse

  predicate Omitted(e: Event) {
    var f := Normalized(e);
    f.observedSize.Some? && f.capturedSize.Some? && f.observedSize != f.capturedSize
  }

  predicate Says(e: Event, websocket: bool, v: Verdict) {
    match e.kind
    case RequestBodyFinished =>
      if e.terminal == Some(Complete) then v == CompleteRequest else v == IncompleteRequest
    case TransportAttemptFinished =>
      !websocket && if e.terminal == Some(Complete) then v == CompleteResponse else v == IncompleteResponse
    case WebsocketConnectionFinished =>
      if e.terminal.Some? && Normalized(e).captureFailed == Some(false)
      then v == CompleteRequest || v == CompleteResponse
      else v == IncompleteRequest || v == IncompleteResponse
    case RequestBodyChunk => Omitted(e) && v == IncompleteRequest
    case ResponseBodyChunk => Omitted(e) && v == IncompleteResponse
    case WebsocketFrame =>
      && Omitted(e)
      && ((Normalized(e).direction == Some(ClientToUpstream) && v == IncompleteRequest)
          || (Normalized(e).direction == Some(UpstreamToClient) && v == IncompleteResponse))
    case _ => false
  }

  predicate Marks(attempts: set<string>, websockets: set<string>, e: Event, v: Verdict) {
    e.source.Proxy? && e.attempt.Some? && e.attempt.value in attempts && Says(e, e.attempt.value in websockets, v)
  }

  /** An event counts only for an attempt that was announced before it. */
  predicate Judges(before: Log, e: Event, v: Verdict) {
    Marks(ModelAttempts(before), WebsocketAttempts(before), e, v)
  }

  function Payloads(log: Log, v: Verdict): set<string> {
    set i | 0 <= i < |log| && Judges(log[..i], log[i], v) :: Attempt(log[i])
  }

  lemma {:induction false} PayloadsGrow(log: Log, e: Event, v: Verdict)
    ensures Payloads(log + [e], v) == Payloads(log, v) + if Judges(log, e, v) then {Attempt(e)} else {}
  {
    var more := log + [e];
    assert more[..|log|] == log && more[|log|] == e;
    forall i | 0 <= i < |log| ensures more[..i] == log[..i] && more[i] == log[i] {}
    if Judges(log, e, v) { assert Attempt(more[|log|]) in Payloads(more, v); }
    forall i | 0 <= i < |log| && Judges(log[..i], log[i], v) ensures Attempt(log[i]) in Payloads(more, v) {
      assert Judges(more[..i], more[i], v);
    }
  }

  /** The event that announces an attempt says nothing about payloads yet. */
  lemma {:induction false} JudgedAfter(log: Log, e: Event, v: Verdict)
    ensures Marks(ModelAttempts(log + [e]), WebsocketAttempts(log + [e]), e, v) <==> Judges(log, e, v)
  {
    if e.kind.TransportRequestStarted? {
      assert !Says(e, true, v) && !Says(e, false, v);
    } else {
      IdsGrow(log, e, StartsModelAttempt, Attempt);
      IdsGrow(log, e, StartsWebsocket, Attempt);
    }
  }

  function Marked(before: set<string>, attempts: set<string>, websockets: set<string>, e: Event, v: Verdict): set<string> {
    before + if Marks(attempts, websockets, e, v) then {Attempt(e)} else {}
  }

  lemma {:induction false} PayloadsAfter(log: Log, e: Event, v: Verdict)
    ensures Marked(Payloads(log, v), ModelAttempts(log + [e]), WebsocketAttempts(log + [e]), e, v) == Payloads(log + [e], v)
  {
    JudgedAfter(log, e, v);
    PayloadsGrow(log, e, v);
  }

  datatype ConnectionId = Named(id: string) | MissingAt(sequence: nat)

  predicate ObservesConnection(e: Event) {
    e.source.Process? && e.kind.NetworkConnectionObserved? && e.normalized.Some?
  }

  function ConnectionOf(e: Event): ConnectionId {
    if e.connection.Some? then Named(e.connection.value) else MissingAt(e.sequence)
  }

  function EgressClass(e: Event): TrafficClass {
    match Normalized(e).trafficClass
    case Some(c) => if c.Model? || c.Unlisted? then UnknownExternal else c
    case None => UnknownExternal
  }

  predicate ObservesClass(e: Event, c: TrafficClass) { ObservesConnection(e) && EgressClass(e) == c }

  predicate ObservesQuic(e: Event) {
    && ObservesConnection(e) && (EgressClass(e).UnknownExternal? || EgressClass(e).ModelBypass?)
    && Normalized(e).protocol.Some? && Normalized(e).protocol.value.Udp?
  }

  function Joined(classes: map<TrafficClass, set<ConnectionId>>, c: TrafficClass, id: ConnectionId)
    : map<TrafficClass, set<ConnectionId>>
  {
    classes[c := (if c in classes then classes[c] else {}) + {id}]
  }

  function Egress(log: Log, c: TrafficClass): set<ConnectionId> {
    Ids(log, e => ObservesClass(e, c), ConnectionOf)
  }

  lemma {:induction false} EgressGrows(log: Log, e: Event, c: TrafficClass)
    ensures Egress(log + [e], c) == Egress(log, c) + if ObservesClass(e, c) then {ConnectionOf(e)} else {}
  {
    IdsGrow(log, e, e => ObservesClass(e, c), ConnectionOf);
  }

  function EgressClasses(log: Log): map<TrafficClass, set<ConnectionId>> {
    if log == [] then map[]
    else
      var before, e := EgressClasses(log[..|log| - 1]), log[|log| - 1];
      if ObservesConnection(e) then Joined(before, EgressClass(e), ConnectionOf(e)) else before
  }

  lemma {:induction false} EgressClassesMean(log: Log, c: TrafficClass)
    ensures c in EgressClasses(log) <==> Egress(log, c) != {}
    ensures c in EgressClasses(log) ==> EgressClasses(log)[c] == Egress(log, c)
  {
    if log != [] {
      var before, e := log[..|log| - 1], log[|log| - 1];
      assert log == before + [e];
      EgressClassesMean(before, c);
      EgressGrows(before, e, c);
      assert EgressClass(e) == c && ObservesConnection(e) ==> ConnectionOf(e) in Egress(log, c);
    }
  }

  function PossibleQuic(log: Log): set<ConnectionId> { Ids(log, ObservesQuic, ConnectionOf) }

  predicate IsAttempt(e: Event) { e.source.Proxy? && e.kind.TransportRequestStarted? }

  predicate IsCompleted(e: Event) {
    e.source.Proxy? && e.kind.TransportAttemptFinished? && e.terminal == Some(Complete)
  }

  predicate IsIncomplete(e: Event) {
    e.source.Proxy? && e.kind.TransportAttemptFinished? && e.terminal != Some(Complete)
  }

  predicate IsFinished(e: Event) { e.source.Proxy? && e.kind.TransportAttemptFinished? }

  /** An error status and an error end each count, whoever reports the end. */
  function Errors(e: Event): nat {
    One(e.terminal == Some(Error))
    + One(e.source.Proxy? && e.kind.TransportResponseStarted? && OrElse(Normalized(e).status, 0) >= 400)
  }

  function One(b: bool): nat { if b then 1 else 0 }

  function InputTokens(e: Event): nat {
    if e.source.Proxy? && e.kind.SseEvent? then OrElse(Normalized(e).inputTokens, 0) else 0
  }

  function OutputTokens(e: Event): nat {
    if e.source.Proxy? && e.kind.SseEvent? then OrElse(Normalized(e).outputTokens, 0) else 0
  }

  function UnresolvedReferences(e: Event): nat {
    if e.source.Proxy? && e.kind.LogicalInferenceRequest? then
      var f := Normalized(e);
      OrElse(f.unresolvedReferences, 0)
      + if OrElse(f.scanTruncated, false) || OrElse(f.scanInconclusive, true) then 1 else 0
    else 0
  }

  predicate IsUnresolved(e: Event) { e.source.Correlation? && e.kind.InferenceCorrelationUnresolved? }

  // ------------------------------------------------ inferences and models

  predicate NamesInference(e: Event) {
    StartsModelInference(e) || (e.source.Hook? && e.kind.ModelCallStarted? && e.inference.Some?)
  }

  function LogicalInferences(log: Log): set<string> { Ids(log, NamesInference, Inference) }

  predicate NamesModel(e: Event) {
    e.source.Proxy? && e.kind.LogicalInferenceRequest? && e.inference.Some? && Normalized(e).model.Some?
  }

  predicate IsRetryChain(e: Event) {
    e.source.Correlation? && e.kind.InferenceCorrelation? && Normalized(e).uniqueRetryChain && e.inference.Some?
  }

  /** The first model named for each inference. */
  function InferenceModels(log: Log): map<string, string> {
    if log == [] then map[]
    else
      var before, e := InferenceModels(log[..|log| - 1]), log[|log| - 1];
      if NamesModel(e) && e.inference.value !in before then before[e.inference.value := Normalized(e).model.value] else before
  }

  function Aliased(aliases: map<string, string>, members: seq<string>, canonical: string): map<string, string> {
    aliases + map m | m in members :: canonical
  }

  /** The last chain that lists a transport names its canonical inference. */
  function InferenceAliases(log: Log): map<string, string> {
    if log == [] then map[]
    else
      var before, e := InferenceAliases(log[..|log| - 1]), log[|log| - 1];
      if IsRetryChain(e) then Aliased(before, Normalized(e).members, e.inference.value) else before
  }

  lemma {:induction false} InferencesGrow(log: Log, e: Event)
    ensures InferenceModels(log + [e]) ==
      if NamesModel(e) && e.inference.value !in InferenceModels(log)
      then InferenceModels(log)[e.inference.value := Normalized(e).model.value] else InferenceModels(log)
    ensures InferenceAliases(log + [e]) ==
      if IsRetryChain(e) then Aliased(InferenceAliases(log), Normalized(e).members, e.inference.value)
      else InferenceAliases(log)
  {
    assert (log + [e])[..|log|] == log;
  }

  // ------------------------------------------------ the meaning of a log

  datatype Coverage = Coverage(
    modelAttempts: set<string>, websocketAttempts: set<string>, protocols: map<ProtocolName, nat>,
    completeRequests: set<string>, incompleteRequests: set<string>,
    completeResponses: set<string>, incompleteResponses: set<string>,
    egressClasses: map<TrafficClass, set<ConnectionId>>, unknownEgress: set<ConnectionId>, modelBypass: set<ConnectionId>,
    possibleQuic: set<ConnectionId>)

  function CoverageOf(log: Log): Coverage {
    Coverage(
      ModelAttempts(log), WebsocketAttempts(log), Protocols(log),
      Payloads(log, CompleteRequest), Payloads(log, IncompleteRequest),
      Payloads(log, CompleteResponse), Payloads(log, IncompleteResponse),
      EgressClasses(log), Egress(log, UnknownExternal), Egress(log, ModelBypass), PossibleQuic(log))
  }

  datatype Totals = Totals(
    transportAttempts: nat, finishedAttempts: nat, completedAttempts: nat, incompleteAttempts: nat, inputTokens: nat, outputTokens: nat,
    unresolvedPayloads: nat, unresolvedCorrelations: nat)

  function TotalsOf(log: Log): Totals {
    Totals(
      Count(log, IsAttempt), Count(log, IsFinished), Count(log, IsCompleted), Count(log, IsIncomplete),
      Sum(log, InputTokens), Sum(log, OutputTokens), Sum(log, UnresolvedReferences), Count(log, IsUnresolved))
  }

  function SaturatedTotals(t: Totals): Totals {
    Totals(
      Saturated(t.transportAttempts), Saturated(t.finishedAttempts), Saturated(t.completedAttempts), Saturated(t.incompleteAttempts),
      Saturated(t.inputTokens), Saturated(t.outputTokens),
      Saturated(t.unresolvedPayloads), Saturated(t.unresolvedCorrelations))
  }

  /** What every source adds to: all events, and the errors among them. */
  datatype Tally = Tally(events: nat, errors: nat)

  function TallyOf(log: Log): Tally { Tally(|log|, Sum(log, Errors)) }

  function Tallied(t: Tally, e: Event): Tally { Tally(t.events + 1, t.errors + Errors(e)) }

  function SaturatedTally(t: Tally): Tally { Tally(Saturated(t.events), Saturated(t.errors)) }

  function Referenced(references: map<string, nat>, e: Event): map<string, nat> {
    if e.raw.None? then references
    else
      var (id, size) := (e.raw.value.identity, e.raw.value.size);
      references[id := if id in references && references[id] > size then references[id] else size]
  }

  /** The blobs a log refers to, each with the largest size given for it. */
  function References(log: Log): map<string, nat> {
    if log == [] then map[] else Referenced(References(log[..|log| - 1]), log[|log| - 1])
  }

  predicate RefersTo(e: Event, id: string, size: nat) { e.raw == Some(Raw(id, size)) }

  lemma {:induction false} ReferencesMean(log: Log, id: string)
    ensures id in References(log) <==> exists e, size :: e in log && RefersTo(e, id, size)
    ensures id in References(log) ==>
      && (exists e :: e in log && RefersTo(e, id, References(log)[id]))
      && (forall e, size :: e in log && RefersTo(e, id, size) ==> size <= References(log)[id])
  {
    if log != [] {
      var before, e := log[..|log| - 1], log[|log| - 1];
      assert log == before + [e];
      assert forall x :: x in log <==> x in before || x == e;
      ReferencesMean(before, id);
      if id in References(before) {
        var x :| x in before && RefersTo(x, id, References(before)[id]);
        assert x in log;
      }
      if e.raw.Some? && e.raw.value.identity == id {
        assert RefersTo(e, id, e.raw.value.size);
      }
    }
  }

  datatype Inferences = Inferences(logical: set<string>, models: map<string, string>, aliases: map<string, string>)

  function InferencesOf(log: Log): Inferences {
    Inferences(LogicalInferences(log), InferenceModels(log), InferenceAliases(log))
  }

  // ---------------------------------------------- one event's contribution

  function If<T>(b: bool, x: T): set<T> { if b then {x} else {} }

  function Started(c: Coverage, e: Event): Coverage {
    c.(modelAttempts := c.modelAttempts + If(StartsModelAttempt(e), Attempt(e)),
       websocketAttempts := c.websocketAttempts + If(StartsWebsocket(e), Attempt(e)),
       protocols := if ProtocolKey(e).Some? then Bump(c.protocols, ProtocolKey(e).value) else c.protocols)
  }

  function Judged(c: Coverage, e: Event): Coverage {
    c.(completeRequests := Marked(c.completeRequests, c.modelAttempts, c.websocketAttempts, e, CompleteRequest),
       incompleteRequests := Marked(c.incompleteRequests, c.modelAttempts, c.websocketAttempts, e, IncompleteRequest),
       completeResponses := Marked(c.completeResponses, c.modelAttempts, c.websocketAttempts, e, CompleteResponse),
       incompleteResponses := Marked(c.incompleteResponses, c.modelAttempts, c.websocketAttempts, e, IncompleteResponse))
  }

  function Surfaced(c: Coverage, e: Event): Coverage {
    c.(egressClasses :=
         if ObservesConnection(e) then Joined(c.egressClasses, EgressClass(e), ConnectionOf(e)) else c.egressClasses,
       unknownEgress := c.unknownEgress + If(ObservesClass(e, UnknownExternal), ConnectionOf(e)),
       modelBypass := c.modelBypass + If(ObservesClass(e, ModelBypass), ConnectionOf(e)),
       possibleQuic := c.possibleQuic + If(ObservesQuic(e), ConnectionOf(e)))
  }

  function Added(t: Totals, e: Event): Totals {
    Totals(
      t.transportAttempts + One(IsAttempt(e)), t.finishedAttempts + One(IsFinished(e)),
      t.completedAttempts + One(IsCompleted(e)),
      t.incompleteAttempts + One(IsIncomplete(e)),
      t.inputTokens + InputTokens(e), t.outputTokens + OutputTokens(e),
      t.unresolvedPayloads + UnresolvedReferences(e), t.unresolvedCorrelations + One(IsUnresolved(e)))
  }

  function Inferred(inf: Inferences, e: Event): Inferences {
    Inferences(
      inf.logical + If(NamesInference(e), Inference(e)),
      if NamesModel(e) && e.inference.value !in inf.models then inf.models[e.inference.value := Normalized(e).model.value]
      else inf.models,
      if IsRetryChain(e) then Aliased(inf.aliases, Normalized(e).members, e.inference.value) else inf.aliases)
  }

  lemma {:induction false} AttemptsStep(log: Log, e: Event)
    ensures ModelAttempts(log + [e]) == ModelAttempts(log) + If(StartsModelAttempt(e), Attempt(e))
    ensures WebsocketAttempts(log + [e]) == WebsocketAttempts(log) + If(StartsWebsocket(e), Attempt(e))
    ensures Protocols(log + [e]) ==
      if ProtocolKey(e).Some? then Bump(Protocols(log), ProtocolKey(e).value) else Protocols(log)
  {
    IdsGrow(log, e, StartsModelAttempt, Attempt);
    IdsGrow(log, e, StartsWebsocket, Attempt);
    assert (log + [e])[..|log|] == log;
  }

  lemma {:induction false} EgressStep(log: Log, e: Event)
    ensures EgressClasses(log + [e]) ==
      if ObservesConnection(e) then Joined(EgressClasses(log), EgressClass(e), ConnectionOf(e)) else EgressClasses(log)
    ensures Egress(log + [e], UnknownExternal) == Egress(log, UnknownExternal) + If(ObservesClass(e, UnknownExternal), ConnectionOf(e))
    ensures Egress(log + [e], ModelBypass) == Egress(log, ModelBypass) + If(ObservesClass(e, ModelBypass), ConnectionOf(e))
    ensures PossibleQuic(log + [e]) == PossibleQuic(log) + If(ObservesQuic(e), ConnectionOf(e))
  {
    EgressGrows(log, e, UnknownExternal);
    EgressGrows(log, e, ModelBypass);
    IdsGrow(log, e, ObservesQuic, ConnectionOf);
    assert (log + [e])[..|log|] == log;
  }

  /** The coverage a log means grows by each event's contribution. */
  lemma {:induction false} CoverageSteps(log: Log, e: Event)
    ensures CoverageOf(log + [e]) == Surfaced(Judged(Started(CoverageOf(log), e), e), e)
  {
    AttemptsStep(log, e);
    PayloadsAfter(log, e, CompleteRequest);
    PayloadsAfter(log, e, IncompleteRequest);
    PayloadsAfter(log, e, CompleteResponse);
    PayloadsAfter(log, e, IncompleteResponse);
    EgressStep(log, e);
  }

  lemma {:induction false} TotalsStep(log: Log, e: Event)
    ensures TotalsOf(log + [e]) == Added(TotalsOf(log), e)
  {
    CountGrows(log, e, IsAttempt);
    CountGrows(log, e, IsFinished);
    CountGrows(log, e, IsCompleted);
    CountGrows(log, e, IsIncomplete);
    CountGrows(log, e, IsUnresolved);
    SumGrows(log, e, InputTokens);
    SumGrows(log, e, OutputTokens);
    SumGrows(log, e, UnresolvedReferences);
  }

  lemma {:induction false} InferencesStep(log: Log, e: Event)
    ensures InferencesOf(log + [e]) == Inferred(InferencesOf(log), e)
  {
    IdsGrow(log, e, NamesInference, Inference);
    InferencesGrow(log, e);
  }

  lemma {:induction false} TallyStep(log: Log, e: Event)
    ensures TallyOf(log + [e]) == Tallied(TallyOf(log), e) && References(log + [e]) == Referenced(References(log), e)
  {
    SumGrows(log, e, Errors);
    assert (log + [e])[..|log|] == log;
  }

  /** Every finished attempt is either complete or not. */
  lemma {:induction false} AttemptsAddUp(log: Log)
    ensures Count(log, IsFinished) == Count(log, IsCompleted) + Count(log, IsIncomplete)
  {
    if log != [] {
      AttemptsAddUp(log[..|log| - 1]);
    }
  }

  /** All that is read from a log. */
  datatype Meaning = Meaning(
    coverage: Coverage, totals: Totals, inferences: Inferences, tally: Tally, references: map<string, nat>)

  function MeaningOf(log: Log): Meaning {
    Meaning(CoverageOf(log), TotalsOf(log), InferencesOf(log), TallyOf(log), References(log))
  }

  function Contributed(m: Meaning, e: Event): Meaning {
    Meaning(Surfaced(Judged(Started(m.coverage, e), e), e), Added(m.totals, e), Inferred(m.inferences, e),
            Tallied(m.tally, e), Referenced(m.references, e))
  }

  /** What a log means grows by each event's contribution. */
  lemma {:induction false} MeaningGrows(log: Log, e: Event)
    ensures MeaningOf(log + [e]) == Contributed(MeaningOf(log), e)
  {
    CoverageSteps(log, e);
    TotalsStep(log, e);
    InferencesStep(log, e);
    TallyStep(log, e);
  }

  /** The limits on what is tracked. */
  predicate Within(coverage: Coverage, inferences: Inferences, references: map<string, nat>) {
    && |coverage.modelAttempts| <= MAX_TRACKED_IDENTIFIERS && |coverage.websocketAttempts| <= MAX_TRACKED_IDENTIFIERS
    && |coverage.completeRequests| <= MAX_TRACKED_IDENTIFIERS && |coverage.completeResponses| <= MAX_TRACKED_IDENTIFIERS
    && |coverage.incompleteRequests| <= MAX_TRACKED_IDENTIFIERS
    && |coverage.incompleteResponses| <= MAX_TRACKED_IDENTIFIERS
    && |coverage.unknownEgress| <= MAX_TRACKED_IDENTIFIERS && |coverage.modelBypass| <= MAX_TRACKED_IDENTIFIERS
    && |coverage.possibleQuic| <= MAX_TRACKED_IDENTIFIERS && |coverage.protocols| <= MAX_TRACKED_PROTOCOLS
    && |coverage.egressClasses| <= MAX_TRACKED_EGRESS_CLASSES
    && |inferences.logical| <= MAX_TRACKED_IDENTIFIERS && |inferences.models| <= MAX_TRACKED_IDENTIFIERS
    && |inferences.aliases| <= MAX_TRACKED_IDENTIFIERS && |references| <= MAX_TRACKED_BLOB_REFERENCES
    && Classified(coverage.egressClasses) <= MAX_TRACKED_IDENTIFIERS
  }

  /** The connections of all egress classes together. */
  function Classified(classes: map<TrafficClass, set<ConnectionId>>): nat {
    InClass(classes, ModelRecorder) + InClass(classes, ModelBypass) + InClass(classes, Local) + InClass(classes, Auth)
    + InClass(classes, Telemetry) + InClass(classes, Update) + InClass(classes, OtherClass) + InClass(classes, UnknownExternal)
  }

  function InClass(classes: map<TrafficClass, set<ConnectionId>>, c: TrafficClass): nat {
    if c in classes then |classes[c]| else 0
  }

  predicate Tracked(m: Meaning) { Within(m.coverage, m.inferences, m.references) }

  /** What each prefix of the log means, and whether that is still tracked. */
  function Meanings(log: Log): seq<(Meaning, bool)> {
    seq(|log| + 1, i requires 0 <= i <= |log| => (MeaningOf(log[..i]), Tracked(MeaningOf(log[..i]))))
  }

  predicate Linked(ms: seq<(Meaning, bool)>, log: Log, i: nat)
    requires i < |log| && |ms| == |log| + 1
  {
    ms[i + 1].0 == Contributed(ms[i].0, log[i]) && ms[i + 1].1 == Tracked(ms[i + 1].0)
  }

  predicate Chain(ms: seq<(Meaning, bool)>, log: Log) {
    |ms| == |log| + 1 && ms[0].0 == MeaningOf([]) && forall i: nat :: i < |log| ==> Linked(ms, log, i)
  }

  lemma {:induction false} MeaningsChain(log: Log)
    ensures Chain(Meanings(log), log)
  {
    forall i: nat | i < |log| ensures Linked(Meanings(log), log, i) {
      assert log[..i + 1] == log[..i] + [log[i]];
      MeaningGrows(log[..i], log[i]);
    }
  }

  // -------------------------------------------------------------- the pass

  class EventSummary {
    var coverage: Coverage
    var totals: Totals
    var inferences: Inferences
    var tally: Tally
    var references: map<string, nat>

    /** The fields hold a meaning, counters up to saturation. */
    ghost predicate Shows(m: Meaning)
      reads this
    {
      && coverage == m.coverage && totals == SaturatedTotals(m.totals) && inferences == m.inferences
      && tally == SaturatedTally(m.tally) && references == m.references
    }

    /** Every field holds what the log means by it. */
    ghost predicate Summarises(log: Log)
      reads this
    {
      Shows(MeaningOf(log))
    }

    constructor ()
      ensures Shows(MeaningOf([]))
    {
      coverage := Coverage({}, {}, map[], {}, {}, {}, {}, map[], {}, {}, {});
      totals := Totals(0, 0, 0, 0, 0, 0, 0, 0);
      inferences := Inferences({}, map[], map[]);
      tally, references := Tally(0, 0), map[];
    }

    method UpdateAttempts(event: Event)
      modifies this`coverage
      ensures coverage == Started(old(coverage), event)
    {
      if event.source.Proxy? && event.kind.TransportRequestStarted? && Normalized(event).trafficClass == Some(Model)
         && event.inference.Some? && event.attempt.Some?
      {
        coverage := coverage.(modelAttempts := coverage.modelAttempts + {event.attempt.value});
        var protocol := OrElse(Normalized(event).protocol, UnknownProtocol);
        if protocol.Websocket? {
          coverage := coverage.(websocketAttempts := coverage.websocketAttempts + {event.attempt.value});
        }
        coverage := coverage.(protocols := Bump(coverage.protocols, Downstream(protocol)));
      }
      if event.source.Proxy? && event.kind.TransportResponseStarted? {
        var protocol := Normalized(event).upstreamProtocol;
        if protocol.Some? && !protocol.value.UnlistedUpstream? {
          coverage := coverage.(protocols := Bump(coverage.protocols, Upstream(protocol.value)));
        }
      }
    }

    method CompleteRequests(attempt: string)
      modifies this`coverage
      ensures coverage == old(coverage).(completeRequests := old(coverage).completeRequests + {attempt})
    {
      coverage := coverage.(completeRequests := coverage.completeRequests + {attempt});
    }

    method IncompleteRequests(attempt: string)
      modifies this`coverage
      ensures coverage == old(coverage).(incompleteRequests := old(coverage).incompleteRequests + {attempt})
    {
      coverage := coverage.(incompleteRequests := coverage.incompleteRequests + {attempt});
    }

    method CompleteResponses(attempt: string)
      modifies this`coverage
      ensures coverage == old(coverage).(completeResponses := old(coverage).completeResponses + {attempt})
    {
      coverage := coverage.(completeResponses := coverage.completeResponses + {attempt});
    }

    method IncompleteResponses(attempt: string)
      modifies this`coverage
      ensures coverage == old(coverage).(incompleteResponses := old(coverage).incompleteResponses + {attempt})
    {
      coverage := coverage.(incompleteResponses := coverage.incompleteResponses + {attempt});
    }

    method UpdatePayloadCoverage(event: Event)
      modifies this`coverage
      ensures coverage == Judged(old(coverage), event)
    {
      if !event.source.Proxy? || event.attempt.None? || event.attempt.value !in coverage.modelAttempts {
        return;
      }
      var attempt := event.attempt.value;
      match event.kind {
        case RequestBodyFinished =>
          if event.terminal == Some(Complete) {
            CompleteRequests(attempt);
          } else {
            IncompleteRequests(attempt);
          }
        case TransportAttemptFinished =>
          if attempt !in coverage.websocketAttempts {
            if event.terminal == Some(Complete) {
              CompleteResponses(attempt);
            } else {
              IncompleteResponses(attempt);
            }
          }
        case WebsocketConnectionFinished =>
          if event.terminal.Some? && Normalized(event).captureFailed == Some(false) {
            CompleteRequests(attempt);
            CompleteResponses(attempt);
          } else {
            IncompleteRequests(attempt);
            IncompleteResponses(attempt);
          }
        case RequestBodyChunk =>
          if Omitted(event) {
            IncompleteRequests(attempt);
          }
        case ResponseBodyChunk =>
          if Omitted(event) {
            IncompleteResponses(attempt);
          }
        case WebsocketFrame =>
          if Normalized(event).direction == Some(ClientToUpstream) && Omitted(event) {
            IncompleteRequests(attempt);
          } else if Normalized(event).direction == Some(UpstreamToClient) && Omitted(event) {
            IncompleteResponses(attempt);
          }
        case _ =>
      }
    }

    method UpdateSurfaceCoverage(event: Event)
      modifies this`coverage
      ensures coverage == Surfaced(old(coverage), event)
    {
      if !event.source.Process? || event.normalized.None? || !event.kind.NetworkConnectionObserved? {
        return;
      }
      var connection, cls := ConnectionOf(event), EgressClass(event);
      coverage := coverage.(egressClasses := Joined(coverage.egressClasses, cls, connection));
      if cls == UnknownExternal {
        coverage := coverage.(unknownEgress := coverage.unknownEgress + {connection});
      } else if cls == ModelBypass {
        coverage := coverage.(modelBypass := coverage.modelBypass + {connection});
      }
      if (cls == UnknownExternal || cls == ModelBypass)
         && Normalized(event).protocol.Some? && Normalized(event).protocol.value.Udp?
      {
        coverage := coverage.(possibleQuic := coverage.possibleQuic + {connection});
      }
    }

    method UpdateCounts(event: Event, ghost t: Totals)
      requires totals == SaturatedTotals(t)
      modifies this`totals
      ensures totals == SaturatedTotals(Added(t, event))
    {
      if event.source.Proxy? {
        if event.kind.TransportRequestStarted? {
          totals := totals.(transportAttempts := SaturatingAdd(totals.transportAttempts, 1));
        }
        if event.kind.SseEvent? {
          totals := totals.(
            inputTokens := SaturatingAdd(totals.inputTokens, OrElse(Normalized(event).inputTokens, 0)),
            outputTokens := SaturatingAdd(totals.outputTokens, OrElse(Normalized(event).outputTokens, 0)));
        }
        if event.kind.TransportAttemptFinished? {
          totals := totals.(finishedAttempts := SaturatingAdd(totals.finishedAttempts, 1));
          if event.terminal == Some(Complete) {
            totals := totals.(completedAttempts := SaturatingAdd(totals.completedAttempts, 1));
          } else {
            totals := totals.(incompleteAttempts := SaturatingAdd(totals.incompleteAttempts, 1));
          }
        }
        if event.kind.LogicalInferenceRequest? {
          var f := Normalized(event);
          var uncertain := OrElse(f.scanTruncated, false) || OrElse(f.scanInconclusive, true);
          totals := totals.(unresolvedPayloads := SaturatingAdd(
            SaturatingAdd(totals.unresolvedPayloads, OrElse(f.unresolvedReferences, 0)), One(uncertain)));
        }
      }
      if event.source.Correlation? && event.kind.InferenceCorrelationUnresolved? {
        totals := totals.(unresolvedCorrelations := SaturatingAdd(totals.unresolvedCorrelations, 1));
      }
    }

    method CountError()
      modifies this`tally
      ensures tally == old(tally).(errors := SaturatingAdd(old(tally).errors, 1))
    {
      tally := tally.(errors := SaturatingAdd(tally.errors, 1));
    }

    /** Every event counts; errors count as the branches of `update_counts` see them. */
    method UpdateTally(event: Event, ghost t: Tally)
      requires tally == SaturatedTally(t)
      modifies this`tally
      ensures tally == SaturatedTally(Tallied(t, event))
    {
      tally := tally.(events := SaturatingAdd(tally.events, 1));
      if !event.source.Proxy? {
        if event.terminal == Some(Error) {
          CountError();
        }
        return;
      }
      if event.kind.TransportResponseStarted? && Normalized(event).status.Some? && Normalized(event).status.value >= 400 {
        CountError();
      }
      if event.kind.TransportAttemptFinished? {
        if event.terminal == Some(Error) {
          CountError();
        }
      } else if event.terminal == Some(Error) {
        CountError();
      }
    }

    method UpdateReferences(event: Event)
      modifies this`references
      ensures references == Referenced(old(references), event)
    {
      if event.raw.Some? {
        var id, size := event.raw.value.identity, event.raw.value.size;
        if id in references {
          references := references[id := if references[id] > size then references[id] else size];
        } else {
          references := references[id := size];
        }
      }
    }

    method UpdateInferences(event: Event)
      modifies this`inferences
      ensures inferences == Inferred(old(inferences), event)
    {
      if event.source.Proxy? && event.kind.TransportRequestStarted? && Normalized(event).trafficClass == Some(Model)
         && event.inference.Some?
      {
        inferences := inferences.(logical := inferences.logical + {event.inference.value});
      }
      if event.source.Hook? && event.kind.ModelCallStarted? && event.inference.Some? {
        inferences := inferences.(logical := inferences.logical + {event.inference.value});
      }
      if event.source.Proxy? && event.kind.LogicalInferenceRequest? && event.inference.Some? && Normalized(event).model.Some? {
        if event.inference.value !in inferences.models {
          inferences := inferences.(models := inferences.models[event.inference.value := Normalized(event).model.value]);
        }
      }
      if event.source.Correlation? && event.kind.InferenceCorrelation? && Normalized(event).uniqueRetryChain
         && event.inference.Some?
      {
        AliasMembers(Normalized(event).members, event.inference.value);
      }
    }

    method AliasMembers(members: seq<string>, canonical: string)
      modifies this`inferences
      ensures inferences == old(inferences).(aliases := Aliased(old(inferences).aliases, members, canonical))
    {
      ghost var before := inferences;
      assert before == before.(aliases := Aliased(before.aliases, members[..0], canonical));
      for i := 0 to |members|
        invariant inferences == before.(aliases := Aliased(before.aliases, members[..i], canonical))
      {
        inferences := inferences.(aliases := inferences.aliases[members[i] := canonical]);
        AliasedGrows(before.aliases, members, i, canonical);
      }
      assert members[..|members|] == members;
    }

    method Fold(event: Event, ghost m: Meaning)
      requires Shows(m)
      modifies this
      ensures Shows(Contributed(m, event))
    {
      UpdateAttempts(event);
      UpdatePayloadCoverage(event);
      UpdateSurfaceCoverage(event);
      UpdateCounts(event, m.totals);
      UpdateInferences(event);
      UpdateTally(event, m.tally);
      UpdateReferences(event);
    }

    /** Folds one event of a log and checks the limits. */
    method FoldAt(log: Log, ghost ms: seq<(Meaning, bool)>, i: nat) returns (ok: bool)
      requires Chain(ms, log) && i < |log| && Shows(ms[i].0)
      modifies this
      ensures Shows(ms[i + 1].0) && ok == ms[i + 1].1
    {
      assert Linked(ms, log, i);
      Fold(log[i], ms[i].0);
      ok := Within(coverage, inferences, references);
    }
  }

  lemma {:induction false} AliasedGrows(aliases: map<string, string>, members: seq<string>, i: nat, canonical: string)
    requires i < |members|
    ensures Aliased(aliases, members[..i + 1], canonical) == Aliased(aliases, members[..i], canonical)[members[i] := canonical]
  {
    assert members[..i + 1] == members[..i] + [members[i]];
  }

  /** Folds a whole log, or stops at the first event that makes an index outgrow its limit. */
  method SummarizeEvents(log: Log) returns (summary: EventSummary, ok: bool)
    ensures fresh(summary)
    ensures ok ==> summary.Summarises(log)
    ensures ok <==> forall n: nat :: 0 < n <= |log| ==> Tracked(MeaningOf(log[..n]))
  {
    MeaningsChain(log);
    summary, ok := SummarizeChain(log, Meanings(log));
    assert Meanings(log)[|log|].0 == MeaningOf(log) by { assert log[..|log|] == log; }
    forall n: nat | 0 < n <= |log| ensures Meanings(log)[n].1 == Tracked(MeaningOf(log[..n])) {}
  }

  method SummarizeChain(log: Log, ghost ms: seq<(Meaning, bool)>) returns (summary: EventSummary, ok: bool)
    requires Chain(ms, log)
    ensures fresh(summary)
    ensures ok ==> summary.Shows(ms[|log|].0)
    ensures ok <==> forall n: nat :: 0 < n <= |log| ==> ms[n].1
  {
    summary := new EventSummary();
    ok := true;
    for i := 0 to |log|
      invariant fresh(summary) && summary.Shows(ms[i].0)
      invariant forall n: nat :: 0 < n <= i ==> ms[n].1
    {
      ok := summary.FoldAt(log, ms, i);
      if !ok {
        return;
      }
    }
    ok := true;
  }

  // ------------------------------------------------ hooks change no evidence

  /** `less` is `log` with some hook events taken out and nothing else changed. */
  ghost predicate HooksRemoved(log: Log, less: Log) {
    if log == [] then less == []
    else
      var e := log[|log| - 1];
      || (e.source.Hook? && HooksRemoved(log[..|log| - 1], less))
      || (less != [] && less[|less| - 1] == e && HooksRemoved(log[..|log| - 1], less[..|less| - 1]))
  }

  lemma {:induction false} HookAddsNothing(c: Coverage, t: Totals, e: Event)
    requires e.source.Hook?
    ensures Surfaced(Judged(Started(c, e), e), e) == c && Added(t, e) == t
  {
  }

  /** Taking any hook events out of a log changes none of the transport evidence. */
  lemma {:induction false} HooksChangeNoEvidence(log: Log, less: Log)
    requires HooksRemoved(log, less)
    ensures CoverageOf(log) == CoverageOf(less) && TotalsOf(log) == TotalsOf(less)
  {
    if log != [] {
      var before, e := log[..|log| - 1], log[|log| - 1];
      assert log == before + [e];
      CoverageSteps(before, e);
      TotalsStep(before, e);
      if e.source.Hook? && HooksRemoved(before, less) {
        HooksChangeNoEvidence(before, less);
        HookAddsNothing(CoverageOf(before), TotalsOf(before), e);
      } else {
        var rest := less[..|less| - 1];
        HooksChangeNoEvidence(before, rest);
        assert less == rest + [e];
        CoverageSteps(rest, e);
        TotalsStep(rest, e);
      }
    }
  }

  // --------------------------------------------------- completeness flags

  /** The request flag as the manifest states it. */
  predicate RequestsComplete(log: Log, captureDrops: nat) {
    && ModelAttempts(log) != {} && ModelAttempts(log) <= Payloads(log, CompleteRequest)
    && Payloads(log, IncompleteRequest) == {} && Sum(log, UnresolvedReferences) == 0 && captureDrops == 0
  }

  predicate ResponsesComplete(log: Log, captureDrops: nat) {
    && ModelAttempts(log) != {} && ModelAttempts(log) <= Payloads(log, CompleteResponse)
    && Payloads(log, IncompleteResponse) == {} && captureDrops == 0
  }

  method CompletenessFlags(summary: EventSummary, captureDrops: nat, ghost log: Log)
    returns (requests: bool, responses: bool)
    requires summary.Summarises(log)
    ensures requests == RequestsComplete(log, captureDrops) && responses == ResponsesComplete(log, captureDrops)
  {
    requests := summary.coverage.modelAttempts != {} && summary.coverage.modelAttempts <= summary.coverage.completeRequests
      && summary.coverage.incompleteRequests == {} && summary.totals.unresolvedPayloads == 0 && captureDrops == 0;
    responses := summary.coverage.modelAttempts != {} && summary.coverage.modelAttempts <= summary.coverage.completeResponses
      && summary.coverage.incompleteResponses == {} && captureDrops == 0;
  }

  lemma {:induction false} VerdictsStay(log: Log, more: Log, v: Verdict)
    ensures Payloads(log, v) <= Payloads(log + more, v)
  {
    if more == [] {
      assert log + more == log;
    } else {
      var n := |more| - 1;
      VerdictsStay(log, more[..n], v);
      assert log + more == log + more[..n] + [more[n]];
      PayloadsGrow(log + more[..n], more[n], v);
    }
  }

  /** An attempt once marked incomplete keeps its flag down whatever follows, a later complete event included. */
  lemma {:induction false} IncompleteIsForever(log: Log, more: Log, captureDrops: nat)
    ensures Payloads(log, IncompleteRequest) != {} ==> !RequestsComplete(log + more, captureDrops)
    ensures Payloads(log, IncompleteResponse) != {} ==> !ResponsesComplete(log + more, captureDrops)
  {
    VerdictsStay(log, more, IncompleteRequest);
    VerdictsStay(log, more, IncompleteResponse);
  }

  // ------------------------------------------------- inferences and models

  function Canon(aliases: map<string, string>, inference: string): string {
    if inference in aliases then aliases[inference] else inference
  }

  function Canonical(aliases: map<string, string>, inferences: set<string>): set<string> {
    set i | i in inferences :: Canon(aliases, i)
  }

  ghost function Total(counts: map<string, nat>): nat {
    if counts == map[] then 0 else
      var k :| k in counts;
      counts[k] + Total(counts - {k})
  }

  lemma {:induction false} TotalSplits(counts: map<string, nat>, k: string)
    requires k in counts
    ensures Total(counts) == counts[k] + Total(counts - {k})
    decreases |counts|
  {
    var first :| first in counts && Total(counts) == counts[first] + Total(counts - {first});
    if first != k {
      TotalSplits(counts - {first}, k);
      TotalSplits(counts - {k}, first);
      assert counts - {first} - {k} == counts - {k} - {first};
    }
  }

  lemma {:induction false} TotalBumps(counts: map<string, nat>, k: string)
    ensures Total(Bump(counts, k)) == Total(counts) + 1
  {
    TotalSplits(Bump(counts, k), k);
    if k in counts {
      TotalSplits(counts, k);
      assert Bump(counts, k) - {k} == counts - {k};
    } else {
      assert Bump(counts, k) - {k} == counts;
    }
  }

  /** Later entries of the ordered map replace earlier ones with the same canonical inference. */
  function CanonicalModels(aliases: map<string, string>, models: map<string, string>, order: seq<string>): map<string, string>
    requires forall i :: i in order ==> i in models
  {
    if order == [] then map[]
    else
      var n := |order| - 1;
      CanonicalModels(aliases, models, order[..n])[Canon(aliases, order[n]) := models[order[n]]]
  }

  /** The last inference in key order that stands for `c`. */
  predicate LastFor(aliases: map<string, string>, order: seq<string>, k: nat, c: string) {
    && k < |order| && Canon(aliases, order[k]) == c
    && forall j :: k < j < |order| ==> Canon(aliases, order[j]) != c
  }

  /** Each canonical inference has the model of the last inference that stands for it. */
  lemma {:induction false} LastModelStands(
    aliases: map<string, string>, models: map<string, string>, order: seq<string>, k: nat, c: string)
    requires (forall i :: i in order ==> i in models) && LastFor(aliases, order, k, c)
    ensures var canonical := CanonicalModels(aliases, models, order);
      c in canonical && canonical[c] == models[order[k]]
  {
    var n := |order| - 1;
    if k < n {
      assert LastFor(aliases, order[..n], k, c);
      LastModelStands(aliases, models, order[..n], k, c);
    }
  }

  lemma {:induction false} CanonicalModelKeys(aliases: map<string, string>, models: map<string, string>, order: seq<string>)
    requires forall i :: i in order ==> i in models
    ensures CanonicalModels(aliases, models, order).Keys == Canonical(aliases, set i | i in order)
  {
    if order != [] {
      var n := |order| - 1;
      CanonicalModelKeys(aliases, models, order[..n]);
      assert order == order[..n] + [order[n]];
      assert (set i | i in order) == (set i | i in order[..n]) + {order[n]};
    }
  }

  function WithModel(models: map<string, string>, m: string): set<string> { set c | c in models && models[c] == m }

  /**
  The inference and per-model counts. `order` is the order in which the map of models is
  read, that of its keys; a canonical inference counts under the last model read for it.
  */
  method CountModels(aliases: map<string, string>, inferences: set<string>, models: map<string, string>, order: seq<string>)
    returns (logicalInferences: nat, counts: map<string, nat>)
    requires forall i :: i in order <==> i in models
    ensures logicalInferences == |Canonical(aliases, inferences)|
    ensures Total(counts) == |Canonical(aliases, models.Keys)|
    ensures var canonical := CanonicalModels(aliases, models, order);
      forall m ::
        && (m in counts <==> WithModel(canonical, m) != {})
        && (m in counts ==> counts[m] == |WithModel(canonical, m)|)
  {
    logicalInferences := |Canonical(aliases, inferences)|;
    var canonicalModels: map<string, string> := map[];
    for n := 0 to |order|
      invariant canonicalModels == CanonicalModels(aliases, models, order[..n])
    {
      assert order[..n + 1][..n] == order[..n];
      canonicalModels := canonicalModels[Canon(aliases, order[n]) := models[order[n]]];
    }
    assert order[..|order|] == order;
    CanonicalModelKeys(aliases, models, order);
    assert (set i | i in order) == models.Keys;
    counts := CountValues(canonicalModels);
    assert |canonicalModels| == |canonicalModels.Keys|;
  }

  /** How many of the keys have the model. */
  function NumberWith(models: map<string, string>, keys: seq<string>, m: string): nat {
    if keys == [] then 0
    else
      var n := |keys| - 1;
      NumberWith(models, keys[..n], m) + One(keys[n] in models && models[keys[n]] == m)
  }

  function Counted(models: map<string, string>, keys: seq<string>): map<string, nat>
    requires forall k :: k in keys ==> k in models
  {
    if keys == [] then map[]
    else
      var n := |keys| - 1;
      Bump(Counted(models, keys[..n]), models[keys[n]])
  }

  lemma {:induction false} CountedMeans(models: map<string, string>, keys: seq<string>, m: string)
    requires forall k :: k in keys ==> k in models
    ensures m in Counted(models, keys) <==> NumberWith(models, keys, m) > 0
    ensures m in Counted(models, keys) ==> Counted(models, keys)[m] == NumberWith(models, keys, m)
  {
    if keys != [] {
      CountedMeans(models, keys[..|keys| - 1], m);
    }
  }

  lemma {:induction false} CountedTotal(models: map<string, string>, keys: seq<string>)
    requires forall k :: k in keys ==> k in models
    ensures Total(Counted(models, keys)) == |keys|
  {
    if keys != [] {
      var n := |keys| - 1;
      CountedTotal(models, keys[..n]);
      TotalBumps(Counted(models, keys[..n]), models[keys[n]]);
    }
  }

  lemma {:induction false} NumberIsSize(models: map<string, string>, keys: seq<string>, m: string)
    requires forall i, j :: 0 <= i < j < |keys| ==> keys[i] != keys[j]
    ensures NumberWith(models, keys, m) == |set k | k in keys && k in models && models[k] == m|
  {
    if keys != [] {
      var n := |keys| - 1;
      NumberIsSize(models, keys[..n], m);
      var before := set k | k in keys[..n] && k in models && models[k] == m;
      assert keys == keys[..n] + [keys[n]];
      assert keys[n] !in before;
      assert (set k | k in keys && k in models && models[k] == m)
        == before + if keys[n] in models && models[keys[n]] == m then {keys[n]} else {};
    }
  }

  method CountValues(models: map<string, string>) returns (counts: map<string, nat>)
    ensures Total(counts) == |models|
    ensures forall m :: m in counts <==> WithModel(models, m) != {}
    ensures forall m :: m in counts ==> counts[m] == |WithModel(models, m)|
  {
    counts := map[];
    var left := models.Keys;
    ghost var keys: seq<string> := [];
    while left != {}
      invariant forall k :: k in models <==> k in left || k in keys
      invariant forall k :: k in keys ==> k !in left
      invariant forall i, j :: 0 <= i < j < |keys| ==> keys[i] != keys[j]
      invariant counts == Counted(models, keys)
    {
      var c :| c in left;
      assert (keys + [c])[..|keys|] == keys;
      counts := Bump(counts, models[c]);
      left, keys := left - {c}, keys + [c];
    }
    AllCounted(models, keys);
  }

  lemma {:induction false} AllCounted(models: map<string, string>, keys: seq<string>)
    requires forall k :: k in models <==> k in keys
    requires forall i, j :: 0 <= i < j < |keys| ==> keys[i] != keys[j]
    ensures Total(Counted(models, keys)) == |models|
    ensures forall m :: m in Counted(models, keys) <==> WithModel(models, m) != {}
    ensures forall m :: m in Counted(models, keys) ==> Counted(models, keys)[m] == |WithModel(models, m)|
  {
    CountedTotal(models, keys);
    KeysSize(keys, models.Keys);
    forall m
      ensures m in Counted(models, keys) <==> WithModel(models, m) != {}
      ensures m in Counted(models, keys) ==> Counted(models, keys)[m] == |WithModel(models, m)|
    {
      CountedMeans(models, keys, m);
      NumberIsSize(models, keys, m);
      assert WithModel(models, m) == set k | k in keys && k in models && models[k] == m;
    }
  }

  lemma {:induction false} KeysSize(keys: seq<string>, all: set<string>)
    requires (forall k :: k in all <==> k in keys) && forall i, j :: 0 <= i < j < |keys| ==> keys[i] != keys[j]
    ensures |keys| == |all|
  {
    if keys == [] {
      assert all == {};
    } else {
      var n := |keys| - 1;
      assert keys == keys[..n] + [keys[n]];
      assert keys[n] in all && keys[n] !in keys[..n];
      KeysSize(keys[..n], all - {keys[n]});
    }
  }

  predicate Lists(e: Event, inference: string) { IsRetryChain(e) && inference in Normalized(e).members }

  /** An inference that is listed, and only under one canonical name, is aliased to it. */
  lemma {:induction false} AliasFollowsChain(log: Log, inference: string, canonical: string)
    requires forall e :: e in log && Lists(e, inference) ==> e.inference == Some(canonical)
    ensures (exists e :: e in log && Lists(e, inference)) ==>
      inference in InferenceAliases(log) && InferenceAliases(log)[inference] == canonical
    ensures !(exists e :: e in log && Lists(e, inference)) ==> inference !in InferenceAliases(log)
  {
    if log != [] {
      var before, e := log[..|log| - 1], log[|log| - 1];
      assert log == before + [e];
      assert forall x :: x in log <==> x in before || x == e;
      AliasFollowsChain(before, inference, canonical);
      InferencesGrow(before, e);
      if Lists(e, inference) {
        assert e in log;
        AliasedMember(InferenceAliases(before), Normalized(e).members, canonical, inference);
      } else {
        if exists x :: x in log && Lists(x, inference) {
          var x :| x in log && Lists(x, inference);
          assert x in before;
        }
        if IsRetryChain(e) {
          AliasedOther(InferenceAliases(before), Normalized(e).members, e.inference.value, inference);
        }
      }
    }
  }

  lemma {:induction false} AliasedMember(aliases: map<string, string>, members: seq<string>, canonical: string, m: string)
    requires m in members
    ensures m in Aliased(aliases, members, canonical) && Aliased(aliases, members, canonical)[m] == canonical
  {
  }

  lemma {:induction false} AliasedOther(aliases: map<string, string>, members: seq<string>, canonical: string, m: string)
    requires m !in members
    ensures m in Aliased(aliases, members, canonical) <==> m in aliases
    ensures m in aliases ==> Aliased(aliases, members, canonical)[m] == aliases[m]
  {
  }

  /** The transports of one chain, none of which another chain claims, count as one inference. */
  lemma {:induction false} ChainCountsOnce(log: Log, chain: Event)
    requires chain in log && IsRetryChain(chain)
    requires forall e, m :: e in log && m in Normalized(chain).members && Lists(e, m) ==> e.inference == chain.inference
    ensures Canonical(InferenceAliases(log), set m | m in Normalized(chain).members) <= {chain.inference.value}
  {
    forall m | m in Normalized(chain).members ensures Canon(InferenceAliases(log), m) == chain.inference.value {
      assert Lists(chain, m);
      AliasFollowsChain(log, m, chain.inference.value);
    }
  }
}
