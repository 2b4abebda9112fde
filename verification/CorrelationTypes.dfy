/**
The log as the correlator reads it (`src/correlation.rs`): agent anchors, proxied
transports and the response events that complete them. Times are nanoseconds.
*/
module CorrelationTypes {
  import opened Basics
  import opened Options

  datatype Ids = Ids(
    task: Option<string>, session: Option<string>, turn: Option<string>,
    inference: Option<string>, parent: Option<string>, attempt: Option<string>)

  datatype AnchorKind = PreRequest | Completion

  datatype Anchor = Anchor(kind: AnchorKind, sequence: nat, time: int, ids: Ids, model: Option<string>)

  datatype Transport = Transport(
    sequence: nat, time: int, inference: string, attempt: Option<string>, session: Option<string>,
    responseIds: set<string>, model: Option<string>, fingerprint: Option<string>,
    status: Option<nat>, terminal: Option<TerminalState>)

  /** What the correlator takes an event for; a status is one that fits sixteen bits. */
  datatype Role =
    | CorrelationOutput
    | RequestSummary(model: Option<string>, fingerprint: Option<string>)
    | ResponseStarted(status: Option<nat>)
    | SseEvent(responseId: Option<string>)
    | AttemptFinished(terminal: Option<TerminalState>)
    | OtherRole

  /** `anchor` is set when the event's label makes it one; `agent` when a session or a hook wrote it. */
  datatype Event = Event(
    sequence: nat, time: int, role: Role, ids: Ids, agent: bool, anchor: Option<AnchorKind>, anchorModel: Option<string>)

  type Log = seq<Event>
}
