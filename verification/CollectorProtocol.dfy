/**
The collector daemon as a machine over single steps.

Memory and disk are separate copies of the daemon state; `write_state` is one
atomic replacement of the disk copy. Between any two steps the process may
crash (memory is lost), a call may fail (the cycle ends in its error path) and
the recorded runs may grow or finish. A history is a sequence of step labels;
every theorem at the end of the file speaks about every legal history.
*/
module CollectorProtocol {
  import opened Options

  // ---------------------------------------------------------------- data

  datatype Kind =
    | Pause | Resume | ApplyConfig | Flush | Seal
    | Backfill | DeleteLocal | UploadSensitive | Unsupported

  /** `id` is the request UUID, 0 being the nil one; `recording` is the checked
      recording ID of the payload and `version` its `config_version`;
      `wellFormed` stands for the size and shape checks on kind and payload. */
  datatype Request = Request(
    id: nat, kind: Kind, recording: Option<string>, version: Option<int>, wellFormed: bool)

  datatype Status = Acked | Done | Rejected

  datatype Detail =
    | Empty
    | PausedIs(paused: bool)
    | ConfigIs(version: int)
    | ActiveReport(recording: string, boundary: nat, acked: nat, isSealed: bool)
    | FinalReport(recording: string, acked: nat, isSealed: bool)
    | OtherReport(code: int)

  /** The fixed refusals, and the free text other requests produce. */
  datatype Reason =
    | NoReason | UploadsPaused | InvalidRecording | NotPresent | NotActiveSegment | NotFinalSegment
    | InvalidConfigVersion | ConfigUnavailable | SensitiveDisabled | UnsupportedKind
    | Text(text: string)

  datatype Outcome = Outcome(status: Status, reason: Reason, detail: Detail)

  datatype Operation = Operation(recording: string, boundary: nat)

  /** `serial` numbers the installations of in-flight requests. No decision
      depends on it: it only lets a history say "that in-flight request" when
      the platform delivers one request ID twice. */
  datatype Inflight = Inflight(
    request: Request, operation: Option<Operation>, terminal: Option<Outcome>, serial: nat)

  /** `failed` says that the last error is recorded. */
  datatype DaemonState = DaemonState(
    configVersion: int, paused: bool, inflight: Option<Inflight>, failed: bool)

  /** What the disk says about the run behind a recording ID. */
  datatype RunStatus =
    | Running(boundary: nat, current: string)
    | Finished(current: string)

  /** Calls that leave the process, and whether each was answered without an error. */
  datatype Effect =
    | AckReport(id: nat, answered: bool)
    | TerminalReport(serial: nat, id: nat, outcome: Outcome, answered: bool)
    | ActiveUpload(serial: nat, recording: string, boundary: nat, answered: bool)
    | FinalUpload(serial: nat, recording: string, answered: bool)

  /** What an upload call returns when it succeeds. */
  datatype UploadAnswer = UploadAnswer(recording: string, acked: nat, isSealed: bool)

  datatype AuditAction = CollectorRequest | OtherAction
  datatype AuditEntry = AuditEntry(action: AuditAction, id: nat, status: Status)

  datatype Pc =
    | Down                                             // no process
    | CycleStart
    | Ready                                            // nothing in flight, may accept
    | Accepted(request: Request)                       // "acked" was reported
    | Installed(request: Request)                      // in memory only
    | Executing(request: Request)
    | PauseSet(request: Request)
    | Configuring(request: Request)
    | Preparing(request: Request)
    | OperationSet(request: Request)                   // operation in memory only
    | Uploading(request: Request)
    | FinalUploading(request: Request)
    | Executed(request: Request, outcome: Outcome)
    | TerminalSet(request: Request, outcome: Outcome)  // terminal in memory only
    | Reporting(request: Request, outcome: Outcome)
    | Auditing(request: Request, outcome: Outcome)
    | Clearing
    | Cleared                                          // cleared in memory only
    | Failing                                          // the cycle returned an error

  datatype System = System(
    pc: Pc,
    mem: DaemonState,
    disk: Option<DaemonState>,
    runs: map<string, RunStatus>,
    effects: seq<Effect>,
    audit: seq<AuditEntry>,
    torn: bool,                                        // the audit file ends in half a record
    serials: nat)

  // ---------------------------------------------------------- validation

  predicate ValidRequest(r: Request) {
    r.id != 0 && r.wellFormed
  }

  predicate ValidOutcome(o: Outcome) {
    o.reason.Text? ==>
      && |o.reason.text| <= 2048
      && forall c :: c in o.reason.text ==> c != '\0' && c != '\r' && c != '\n'
  }

  /** `validate_state`, for the fields kept here. */
  predicate ValidState(s: DaemonState) {
    && s.configVersion >= 0
    && (s.inflight.Some? ==>
      var i := s.inflight.value;
      && ValidRequest(i.request)
      && (i.operation.Some? ==>
        && i.request.kind in {Flush, Seal}
        && i.operation.value.boundary > 0
        && i.request.recording == Some(i.operation.value.recording))
      && (i.terminal.Some? ==> ValidOutcome(i.terminal.value)))
  }

  function RejectedWith(reason: Reason): Outcome { Outcome(Rejected, reason, Empty) }
  function DoneWith(detail: Detail): Outcome { Outcome(Done, NoReason, detail) }

  const Blank := DaemonState(0, false, None, false)

  // --------------------------------------------------------------- steps

  datatype Step =
    | RunsChange(runs: map<string, RunStatus>)
    | Crash
    | Fail
    | Open
    | Register(version: int, stored: bool)
    | ResumeNothing
    | ResumeTerminal
    | ResumeExecute
    | Housekeeping(failed: bool, audited: seq<AuditEntry>)
    | EndCycle
    | Accept(request: Request, ok: bool)
    | Install
    | Persist
    | Execute
    | ExecuteOther(outcome: Outcome)
    | Prepare
    | UploadActive(answer: Option<UploadAnswer>)
    | UploadFinal(answer: Option<UploadAnswer>)
    | SetTerminal
    | Report(ok: bool)
    | Audit(ok: bool)
    | TearAudit
    | Clear

  /** A run that stays the same running segment never loses durable events. */
  predicate RunsMayBecome(before: map<string, RunStatus>, after: map<string, RunStatus>) {
    forall r :: r in before && r in after && before[r].Running? && after[r].Running?
                ==> before[r].boundary <= after[r].boundary
  }

  function InflightId(s: DaemonState): Option<nat> {
    if s.inflight.Some? then Some(s.inflight.value.request.id) else None
  }

  predicate HasRequestRecord(audit: seq<AuditEntry>, id: nat, status: Status) {
    AuditEntry(CollectorRequest, id, status) in audit
  }

  /** Where the program continues once `persist_state` has succeeded. */
  function AfterPersist(pc: Pc, mem: DaemonState): Pc {
    match pc
    case Installed(r) => Executing(r)
    case PauseSet(r) => Executed(r, DoneWith(PausedIs(mem.paused)))
    case OperationSet(r) => Uploading(r)
    case TerminalSet(r, o) => Reporting(r, o)
    case Cleared => Ready
    case Failing => CycleStart
    case _ => pc
  }

  predicate Persists(pc: Pc) {
    pc.Installed? || pc.PauseSet? || pc.OperationSet? || pc.TerminalSet? || pc.Cleared? || pc.Failing?
  }

  /** `ensure_registered` runs at these points; `apply_config` forces it. */
  predicate Registers(pc: Pc) {
    pc.CycleStart? || pc.Ready? || pc.Reporting? || pc.Configuring?
  }

  function AfterRegister(pc: Pc, mem: DaemonState): Pc {
    match pc
    case Configuring(r) =>
      if r.version == Some(mem.configVersion) then Executed(r, DoneWith(ConfigIs(mem.configVersion)))
      else Executed(r, RejectedWith(ConfigUnavailable))
    case _ => pc
  }

  /** The branch `execute_request` takes, before anything but memory changes. */
  function ExecuteBranch(r: Request, mem: DaemonState, runs: map<string, RunStatus>): Pc {
    match r.kind
    case Pause => PauseSet(r)
    case Resume => PauseSet(r)
    case ApplyConfig =>
      if r.version.Some? && r.version.value >= 0 then Configuring(r)
      else Executed(r, RejectedWith(InvalidConfigVersion))
    case UploadSensitive =>
      Executed(r, RejectedWith(SensitiveDisabled))
    case Unsupported => Executed(r, RejectedWith(UnsupportedKind))
    case Backfill => Executing(r)
    case DeleteLocal => Executing(r)
    case _ =>
      if mem.paused then Executed(r, RejectedWith(UploadsPaused))
      else if r.recording.None? then Executed(r, RejectedWith(InvalidRecording))
      else if r.recording.value !in runs then
        Executed(r, RejectedWith(NotPresent))
      else if InflightId(mem) != Some(r.id) then Failing
      else
        var run := runs[r.recording.value];
        var operation := mem.inflight.value.operation;
        if operation.Some? then
          if operation.value.recording == r.recording.value then Uploading(r) else Failing
        else if run.Running? then Preparing(r)
        else if run.current != r.recording.value then
          Executed(r, RejectedWith(NotFinalSegment))
        else FinalUploading(r)
  }

  predicate Enabled(s: System, step: Step) {
    match step
    case RunsChange(runs) => RunsMayBecome(s.runs, runs)
    case Crash => true
    case Fail => !s.pc.Down? && !s.pc.Failing?
    case Open => s.pc.Down? && (s.disk.Some? ==> ValidState(s.disk.value))
    case Register(v, stored) =>
      Registers(s.pc) && v >= s.mem.configVersion && (stored ==> ValidState(s.mem.(configVersion := v)))
    case ResumeNothing => s.pc.CycleStart? && s.mem.inflight.None?
    case ResumeTerminal =>
      s.pc.CycleStart? && s.mem.inflight.Some? && s.mem.inflight.value.terminal.Some?
    case ResumeExecute =>
      s.pc.CycleStart? && s.mem.inflight.Some? && s.mem.inflight.value.terminal.None?
    case Housekeeping(_, audited) =>
      && s.pc.Ready? && ValidState(s.mem) && !s.torn
      && forall e :: e in audited ==> e.action == OtherAction
    case EndCycle => s.pc.Ready?
    case Accept(r, _) => s.pc.Ready? && ValidRequest(r)
    case Install => s.pc.Accepted?
    case Persist => Persists(s.pc) && ValidState(s.mem)
    case Execute => s.pc.Executing?
    case ExecuteOther(o) =>
      s.pc.Executing? && s.pc.request.kind in {Backfill, DeleteLocal} && o.status != Acked
    case Prepare =>
      && s.pc.Preparing? && s.mem.inflight.Some? && s.pc.request.recording.Some?
      && s.pc.request.recording.value in s.runs && s.runs[s.pc.request.recording.value].Running?
    case UploadActive(_) =>
      s.pc.Uploading? && s.mem.inflight.Some? && s.mem.inflight.value.operation.Some?
    case UploadFinal(_) =>
      s.pc.FinalUploading? && s.mem.inflight.Some? && s.pc.request.recording.Some?
    case SetTerminal => s.pc.Executed? && InflightId(s.mem) == Some(s.pc.request.id)
    case Report(_) => s.pc.Reporting? && s.mem.inflight.Some?
    case Audit(_) => s.pc.Auditing? && !s.torn
    case TearAudit => s.pc.Auditing? && !s.torn
    case Clear => s.pc.Clearing?
  }

  function Apply(s: System, step: Step): System
    requires Enabled(s, step)
  {
    match step
    case RunsChange(runs) => s.(runs := runs)
    case Crash => s.(pc := Down, mem := Blank)
    case Fail => s.(pc := Failing)
    case Open =>
      var state := if s.disk.Some? then s.disk.value else Blank;
      s.(pc := CycleStart, mem := state, disk := Some(state))
    case Register(v, stored) =>
      var mem := s.mem.(configVersion := v);
      if stored then s.(pc := AfterRegister(s.pc, mem), mem := mem, disk := Some(mem))
      else s.(pc := Failing, mem := mem)
    case ResumeNothing => s.(pc := Ready, mem := s.mem.(failed := false))
    case ResumeTerminal =>
      s.(pc := Reporting(s.mem.inflight.value.request, s.mem.inflight.value.terminal.value),
         mem := s.mem.(failed := false))
    case ResumeExecute =>
      s.(pc := Executing(s.mem.inflight.value.request), mem := s.mem.(failed := false))
    case Housekeeping(failed, audited) =>
      var mem := s.mem.(failed := failed);
      s.(mem := mem, disk := Some(mem), audit := s.audit + audited)
    case EndCycle => s.(pc := CycleStart)
    case Accept(r, ok) =>
      s.(pc := if ok then Accepted(r) else Failing, effects := s.effects + [AckReport(r.id, ok)])
    case Install =>
      s.(pc := Installed(s.pc.request),
         mem := s.mem.(inflight := Some(Inflight(s.pc.request, None, None, s.serials))),
         serials := s.serials + 1)
    case Persist =>
      var mem := if s.pc.Failing? then s.mem.(failed := true) else s.mem;
      s.(pc := AfterPersist(s.pc, mem), mem := mem, disk := Some(mem))
    case Execute =>
      var pc := ExecuteBranch(s.pc.request, s.mem, s.runs);
      if pc.PauseSet? then s.(pc := pc, mem := s.mem.(paused := s.pc.request.kind.Pause?))
      else s.(pc := pc)
    case ExecuteOther(o) => s.(pc := Executed(s.pc.request, o))
    case Prepare =>
      var recording := s.pc.request.recording.value;
      var run := s.runs[recording];
      if run.current != recording then
        s.(pc := Executed(s.pc.request, RejectedWith(NotActiveSegment)))
      else if InflightId(s.mem) != Some(s.pc.request.id) then s.(pc := Failing)
      else
        var pinned := s.mem.inflight.value.(operation := Some(Operation(recording, run.boundary)));
        s.(pc := OperationSet(s.pc.request), mem := s.mem.(inflight := Some(pinned)))
    case UploadActive(answer) =>
      var i := s.mem.inflight.value;
      var op := i.operation.value;
      var called := s.(effects := s.effects + [ActiveUpload(i.serial, op.recording, op.boundary, answer.Some?)]);
      if answer.None? then called.(pc := Failing)
      else
        var report := ActiveReport(answer.value.recording, op.boundary, answer.value.acked, answer.value.isSealed);
        called.(pc := Executed(s.pc.request, DoneWith(report)))
    case UploadFinal(answer) =>
      var i := s.mem.inflight.value;
      var called := s.(effects := s.effects + [FinalUpload(i.serial, s.pc.request.recording.value, answer.Some?)]);
      if answer.None? then called.(pc := Failing)
      else
        var report := FinalReport(answer.value.recording, answer.value.acked, answer.value.isSealed);
        called.(pc := Executed(s.pc.request, DoneWith(report)))
    case SetTerminal =>
      var decided := s.mem.inflight.value.(terminal := Some(s.pc.outcome));
      s.(pc := TerminalSet(s.pc.request, s.pc.outcome), mem := s.mem.(inflight := Some(decided)))
    case Report(ok) =>
      var call := TerminalReport(s.mem.inflight.value.serial, s.pc.request.id, s.pc.outcome, ok);
      s.(effects := s.effects + [call],
         pc := if ok then Auditing(s.pc.request, s.pc.outcome) else Failing)
    case Audit(ok) =>
      var id, status := s.pc.request.id, s.pc.outcome.status;
      var audit := if HasRequestRecord(s.audit, id, status) then s.audit
                   else s.audit + [AuditEntry(CollectorRequest, id, status)];
      s.(audit := audit, pc := if ok then Clearing else Failing)
    case TearAudit => s.(torn := true, pc := Failing)
    case Clear => s.(pc := Cleared, mem := s.mem.(inflight := None))
  }

  // ------------------------------------------------------------ histories

  ghost predicate Initial(s: System) {
    && s.pc.Down? && s.mem == Blank && s.disk.None? && s.effects == [] && s.serials == 0 && !s.torn
    && forall e :: e in s.audit ==> e.action == OtherAction
  }

  ghost predicate Legal(init: System, steps: seq<Step>)
    decreases |steps|, 0
  {
    steps == [] ||
    (var front := steps[..|steps| - 1];
     Legal(init, front) && Enabled(After(init, front), steps[|steps| - 1]))
  }

  /** The state the history leads to. */
  ghost function After(init: System, steps: seq<Step>): System
    requires Legal(init, steps)
    decreases |steps|, 1
  {
    if steps == [] then init
    else Apply(After(init, steps[..|steps| - 1]), steps[|steps| - 1])
  }

  // ----------------------------------------------------------- invariant

  /** How the in-flight request in memory may be ahead of the one on disk. */
  ghost predicate Ahead(s: System, disk: Option<Inflight>, mem: Option<Inflight>) {
    || disk == mem
    || (disk.None? && mem.Some? && Fresh(s, mem.value))
    || (disk.Some? && mem.Some? && Pins(disk.value, mem.value))
    || (disk.Some? && mem.Some? && Decides(disk.value, mem.value))
    || (disk.Some? && mem.None? && Settled(s, disk.value))
  }

  ghost predicate Fresh(s: System, i: Inflight) {
    && i.operation.None? && i.terminal.None?
    && forall e :: e in s.effects && SerialOf(e).Some? ==> SerialOf(e).value != i.serial
  }

  predicate Pins(before: Inflight, after: Inflight) {
    before.operation.None? && before.terminal.None? && after.operation.Some?
    && after == before.(operation := after.operation)
  }

  predicate Decides(before: Inflight, after: Inflight) {
    before.terminal.None? && after.terminal.Some? && after == before.(terminal := after.terminal)
  }

  /** The platform answered the report of the outcome, and it is in the audit log. */
  ghost predicate Settled(s: System, i: Inflight) {
    && i.terminal.Some?
    && TerminalReport(i.serial, i.request.id, i.terminal.value, true) in s.effects
    && HasRequestRecord(s.audit, i.request.id, i.terminal.value.status)
  }

  function SerialOf(e: Effect): Option<nat> {
    if e.AckReport? then None else Some(e.serial)
  }

  function Stored(s: System): Option<Inflight> {
    if s.disk.Some? then s.disk.value.inflight else None
  }

  /** What the program counter knows about the two copies. */
  ghost predicate PcInvariant(s: System) {
    var disk, mem := Stored(s), s.mem.inflight;
    match s.pc
    case Down => true
    case CycleStart => disk == mem
    case Ready => disk == mem == None
    case Accepted(r) => disk == mem == None && ValidRequest(r)
    case Installed(r) => disk.None? && mem.Some? && mem.value.request == r && Fresh(s, mem.value)
    case Executing(r) => InExecution(disk, mem, r)
    case PauseSet(r) => InExecution(disk, mem, r)
    case Configuring(r) => InExecution(disk, mem, r)
    case Preparing(r) => InExecution(disk, mem, r) && mem.value.operation.None? && r.kind in {Flush, Seal}
    case OperationSet(r) =>
      disk.Some? && mem.Some? && Pins(disk.value, mem.value) && mem.value.request == r
    case Uploading(r) => InExecution(disk, mem, r) && mem.value.operation.Some?
    case FinalUploading(r) => InExecution(disk, mem, r) && mem.value.operation.None?
    case Executed(r, _) => InExecution(disk, mem, r)
    case TerminalSet(r, o) =>
      disk.Some? && mem.Some? && Decides(disk.value, mem.value) && mem.value.request == r
      && mem.value.terminal == Some(o)
    case Reporting(r, o) =>
      disk == mem && mem.Some? && mem.value.request == r && mem.value.terminal == Some(o)
    case Auditing(r, o) =>
      disk == mem && mem.Some? && mem.value.request == r && mem.value.terminal == Some(o)
      && TerminalReport(mem.value.serial, r.id, o, true) in s.effects
    case Clearing => disk == mem && mem.Some? && Settled(s, mem.value)
    case Cleared => disk.Some? && mem.None? && Settled(s, disk.value)
    case Failing => Ahead(s, disk, mem)
  }

  predicate InExecution(disk: Option<Inflight>, mem: Option<Inflight>, r: Request) {
    disk == mem && mem.Some? && mem.value.request == r && mem.value.terminal.None?
  }

  /** What was sent in the name of an in-flight request is what its disk copy says. */
  ghost predicate EffectsMatchDisk(s: System) {
    forall e :: e in s.effects ==> EffectMatches(e, Stored(s))
  }

  predicate EffectMatches(e: Effect, disk: Option<Inflight>) {
    disk.Some? && SerialOf(e) == Some(disk.value.serial) ==>
      match e
      case TerminalReport(_, id, o, _) => disk.value.request.id == id && disk.value.terminal == Some(o)
      case ActiveUpload(_, r, b, _) => disk.value.operation == Some(Operation(r, b))
      case _ => true
  }

  ghost predicate ReportsAgree(effects: seq<Effect>) {
    forall a, b :: a in effects && b in effects && a.TerminalReport? && b.TerminalReport? && a.serial == b.serial
                   ==> a.id == b.id && a.outcome == b.outcome
  }

  ghost predicate ActiveUploadsAgree(effects: seq<Effect>) {
    forall a, b :: a in effects && b in effects && a.ActiveUpload? && b.ActiveUpload? && a.serial == b.serial
                   ==> a.recording == b.recording && a.boundary == b.boundary
  }

  /** An answered upload of this request, at the pinned boundary if there is one. */
  ghost predicate UploadAnswered(effects: seq<Effect>, i: Inflight) {
    if i.operation.Some? then
      ActiveUpload(i.serial, i.operation.value.recording, i.operation.value.boundary, true) in effects
    else
      i.request.recording.Some? && FinalUpload(i.serial, i.request.recording.value, true) in effects
  }

  /** A flush or seal is done only by an upload that was answered; the outcome reports that upload. */
  ghost predicate Earned(effects: seq<Effect>, i: Inflight, o: Outcome) {
    i.request.kind in {Flush, Seal} && o.status.Done? ==>
      && UploadAnswered(effects, i)
      && (if i.operation.Some? then o.detail.ActiveReport? && o.detail.boundary == i.operation.value.boundary
          else o.detail.FinalReport?)
  }

  ghost predicate TerminalIsEarned(effects: seq<Effect>, i: Option<Inflight>) {
    i.Some? && i.value.terminal.Some? ==> Earned(effects, i.value, i.value.terminal.value)
  }

  ghost predicate ExecutionIsEarned(s: System) {
    && (s.pc.Executed? && s.mem.inflight.Some? ==> Earned(s.effects, s.mem.inflight.value, s.pc.outcome))
    && (s.pc.PauseSet? ==> s.pc.request.kind in {Pause, Resume})
    && (s.pc.Configuring? ==> s.pc.request.kind.ApplyConfig?)
  }

  ghost predicate OutcomesAreEarned(s: System) {
    && TerminalIsEarned(s.effects, Stored(s))
    && TerminalIsEarned(s.effects, s.mem.inflight)
    && ExecutionIsEarned(s)
  }

  /** The platform answered the acknowledgement of this request. */
  ghost predicate WasAcknowledged(effects: seq<Effect>, i: Option<Inflight>) {
    i.Some? ==> AckReport(i.value.request.id, true) in effects
  }

  ghost predicate Acknowledged(s: System) {
    && WasAcknowledged(s.effects, Stored(s))
    && WasAcknowledged(s.effects, s.mem.inflight)
    && (s.pc.Accepted? ==> AckReport(s.pc.request.id, true) in s.effects)
  }

  ghost predicate OneRecordPerOutcome(audit: seq<AuditEntry>) {
    forall i, j :: 0 <= i < j < |audit| && audit[i].action == audit[j].action == CollectorRequest
                   ==> audit[i] != audit[j]
  }

  ghost predicate SerialsBelow(s: System) {
    && (s.mem.inflight.Some? ==> s.mem.inflight.value.serial < s.serials)
    && (Stored(s).Some? ==> Stored(s).value.serial < s.serials)
    && forall e :: e in s.effects && SerialOf(e).Some? ==> SerialOf(e).value < s.serials
  }

  ghost predicate Invariant(s: System) {
    && PcInvariant(s)
    && (s.disk.Some? ==> ValidState(s.disk.value))
    && (!s.pc.Down? ==> s.disk.Some?)
    && SerialsBelow(s)
    && EffectsMatchDisk(s)
    && ReportsAgree(s.effects)
    && ActiveUploadsAgree(s.effects)
    && OneRecordPerOutcome(s.audit)
    && OutcomesAreEarned(s)
    && Acknowledged(s)
  }

  /** Nothing is ever taken out of the effects or the audit log. */
  predicate OnlyAppends(s: System, s': System) {
    s.effects <= s'.effects && s.audit <= s'.audit && s.serials <= s'.serials
  }

  /** At most one call is sent, and in the name of the request on disk. */
  predicate Sends(s: System, s': System) {
    || s'.effects == s.effects
    || (&& |s'.effects| == |s.effects| + 1 && s.effects <= s'.effects
        && Stored(s') == Stored(s)
        && Speaks(s'.effects[|s.effects|], Stored(s)))
  }

  predicate Speaks(e: Effect, disk: Option<Inflight>) {
    || e.AckReport?
    || (&& disk.Some? && SerialOf(e) == Some(disk.value.serial) && EffectMatches(e, disk)
        && (e.FinalUpload? ==> disk.value.operation.None?))
  }

  /** The in-flight request on disk only ever becomes the one in memory. */
  ghost predicate MovesDisk(s: System, s': System) {
    Stored(s) == Stored(s') || (Stored(s') == s.mem.inflight && Ahead(s, Stored(s), s.mem.inflight))
  }

  lemma StepAppends(s: System, step: Step)
    requires Enabled(s, step)
    ensures OnlyAppends(s, Apply(s, step))
  {}

  lemma StepMovesDisk(s: System, step: Step)
    requires PcInvariant(s) && Enabled(s, step)
    ensures MovesDisk(s, Apply(s, step))
  {}

  lemma StepSends(s: System, step: Step)
    requires PcInvariant(s) && Enabled(s, step)
    ensures Sends(s, Apply(s, step))
  {}

  predicate Starts(step: Step) {
    step.Open? || step.Register? || step.ResumeNothing? || step.ResumeTerminal? || step.ResumeExecute?
    || step.Housekeeping? || step.EndCycle? || step.Accept? || step.Install? || step.RunsChange?
    || step.Crash? || step.Fail?
  }

  predicate Executes(step: Step) {
    step.ExecuteOther? || step.Prepare? || step.UploadActive? || step.UploadFinal?
  }

  lemma StartKeepsPc(s: System, step: Step)
    requires PcInvariant(s) && SerialsBelow(s) && Enabled(s, step) && Starts(step)
    ensures PcInvariant(Apply(s, step))
  {
    StepAppends(s, step);
  }

  lemma ExecuteKeepsPc(s: System)
    requires PcInvariant(s) && Enabled(s, Execute)
    ensures PcInvariant(Apply(s, Execute))
  {}

  lemma ExecutionKeepsPc(s: System, step: Step)
    requires PcInvariant(s) && SerialsBelow(s) && Enabled(s, step) && Executes(step)
    ensures PcInvariant(Apply(s, step))
  {
    StepAppends(s, step);
  }

  lemma SettlementKeepsPc(s: System, step: Step)
    requires PcInvariant(s) && SerialsBelow(s) && Enabled(s, step) && !Starts(step) && !step.Execute? && !Executes(step)
    ensures PcInvariant(Apply(s, step))
  {
    StepAppends(s, step);
  }

  lemma StepKeepsDisk(s: System, step: Step)
    requires Enabled(s, step)
    requires (s.disk.Some? ==> ValidState(s.disk.value)) && (!s.pc.Down? ==> s.disk.Some?)
    ensures var s' := Apply(s, step);
      (s'.disk.Some? ==> ValidState(s'.disk.value)) && (!s'.pc.Down? ==> s'.disk.Some?)
  {}

  lemma StepKeepsMemorySerial(s: System, step: Step)
    requires SerialsBelow(s) && Enabled(s, step)
    ensures var s' := Apply(s, step);
      s'.mem.inflight.Some? ==> s'.mem.inflight.value.serial < s'.serials
  {}

  /** Where the terminal outcome in memory comes from after one step. */
  lemma StepMovesTerminal(s: System, step: Step)
    requires PcInvariant(s) && Enabled(s, step)
    ensures var mem, mem' := s.mem.inflight, Apply(s, step).mem.inflight;
      mem'.Some? && mem'.value.terminal.Some? ==>
        || (step.Open? && mem' == Stored(s))
        || (step.SetTerminal? && mem.Some? && mem' == Some(mem.value.(terminal := Some(s.pc.outcome))))
        || mem' == mem
  {}

  lemma StepKeepsTerminals(s: System, step: Step)
    requires PcInvariant(s) && OutcomesAreEarned(s) && Enabled(s, step)
    ensures var s' := Apply(s, step);
      TerminalIsEarned(s'.effects, Stored(s')) && TerminalIsEarned(s'.effects, s'.mem.inflight)
  {
    StepMovesTerminal(s, step);
    StepMovesDisk(s, step);
    StepAppends(s, step);
    var s' := Apply(s, step);
    EarnedStays(s.effects, s'.effects, Stored(s));
    EarnedStays(s.effects, s'.effects, s.mem.inflight);
    if s.pc.Executed? && s.mem.inflight.Some? {
      EarnedStays(s.effects, s'.effects, Some(s.mem.inflight.value.(terminal := Some(s.pc.outcome))));
    }
  }

  lemma EarnedStays(effects: seq<Effect>, effects': seq<Effect>, i: Option<Inflight>)
    requires effects <= effects' && TerminalIsEarned(effects, i)
    ensures TerminalIsEarned(effects', i)
  {}

  lemma ExecuteIsEarned(s: System)
    requires PcInvariant(s) && Enabled(s, Execute)
    ensures ExecutionIsEarned(Apply(s, Execute))
  {}

  lemma ExecutionKeepsEarned(s: System, step: Step)
    requires PcInvariant(s) && Enabled(s, step) && Executes(step)
    ensures ExecutionIsEarned(Apply(s, step))
  {}

  lemma StartKeepsEarned(s: System, step: Step)
    requires PcInvariant(s) && ExecutionIsEarned(s) && Enabled(s, step) && Starts(step)
    ensures ExecutionIsEarned(Apply(s, step))
  {}

  lemma SettlementKeepsEarned(s: System, step: Step)
    requires PcInvariant(s) && ExecutionIsEarned(s) && Enabled(s, step)
    requires !Starts(step) && !step.Execute? && !Executes(step)
    ensures ExecutionIsEarned(Apply(s, step))
  {}

  /** `y` is the same in-flight request as `x`, with nothing decided undone. */
  predicate Continues(x: Inflight, y: Inflight) {
    && y.serial == x.serial && y.request == x.request
    && (x.operation.Some? ==> y.operation == x.operation)
    && (x.terminal.Some? ==> y.terminal == x.terminal)
  }

  /** Where the in-flight request in memory comes from after one step. */
  lemma StepMovesMemory(s: System, step: Step)
    requires PcInvariant(s) && Enabled(s, step)
    ensures var s' := Apply(s, step); var mem' := s'.mem.inflight;
      || mem'.None?
      || (mem'.value.serial == s.serials && s.mem.inflight.None? && step.Install? && s.pc == Accepted(mem'.value.request))
      || (step.Open? && mem' == Stored(s))
      || (s.mem.inflight.Some? && Continues(s.mem.inflight.value, mem'.value))
  {}

  lemma StepDropsMemory(s: System, step: Step)
    requires PcInvariant(s) && Enabled(s, step)
    ensures s.mem.inflight.Some? && Apply(s, step).mem.inflight.None? ==>
      step.Crash? || step.Open? || Settled(s, s.mem.inflight.value)
  {}

  lemma StepAccepts(s: System, step: Step)
    requires Enabled(s, step) && (s.pc.Accepted? ==> AckReport(s.pc.request.id, true) in s.effects)
    ensures var s' := Apply(s, step); s'.pc.Accepted? ==> AckReport(s'.pc.request.id, true) in s'.effects
  {}

  lemma StepKeepsAcknowledged(s: System, step: Step)
    requires PcInvariant(s) && Acknowledged(s) && Enabled(s, step)
    ensures Acknowledged(Apply(s, step))
  {
    StepAccepts(s, step);
    StepAppends(s, step);
    StepMovesDisk(s, step);
    StepMovesMemory(s, step);
    ShapeKeepsAcknowledged(s, Apply(s, step));
  }

  lemma ShapeKeepsAcknowledged(s: System, s': System)
    requires Acknowledged(s) && OnlyAppends(s, s')
    requires s'.pc.Accepted? ==> AckReport(s'.pc.request.id, true) in s'.effects
    requires Stored(s') == Stored(s) || Stored(s') == s.mem.inflight
    requires var mem' := s'.mem.inflight;
      || mem'.None?
      || s.pc == Accepted(mem'.value.request)
      || mem' == Stored(s)
      || (s.mem.inflight.Some? && Continues(s.mem.inflight.value, mem'.value))
    ensures Acknowledged(s')
  {
    assert forall e :: e in s.effects ==> e in s'.effects;
  }

  lemma StepKeepsAudit(s: System, step: Step)
    requires OneRecordPerOutcome(s.audit) && Enabled(s, step)
    ensures OneRecordPerOutcome(Apply(s, step).audit)
  {}

  lemma ShapeKeepsEffects(s: System, s': System)
    requires Invariant(s) && Sends(s, s') && MovesDisk(s, s') && OnlyAppends(s, s')
    requires s'.mem.inflight.Some? ==> s'.mem.inflight.value.serial < s'.serials
    ensures SerialsBelow(s')
    ensures EffectsMatchDisk(s') && ReportsAgree(s'.effects) && ActiveUploadsAgree(s'.effects)
  {
    if s'.effects != s.effects {
      var e := s'.effects[|s.effects|];
      assert s'.effects == s.effects + [e];
      assert forall a :: a in s.effects ==> EffectMatches(a, Stored(s));
    }
  }

  lemma StepKeepsPc(s: System, step: Step)
    requires PcInvariant(s) && SerialsBelow(s) && Enabled(s, step)
    ensures PcInvariant(Apply(s, step))
  {
    if Starts(step) { StartKeepsPc(s, step); }
    else if step.Execute? { ExecuteKeepsPc(s); }
    else if Executes(step) { ExecutionKeepsPc(s, step); }
    else { SettlementKeepsPc(s, step); }
  }

  lemma StepKeepsEarned(s: System, step: Step)
    requires PcInvariant(s) && OutcomesAreEarned(s) && Enabled(s, step)
    ensures OutcomesAreEarned(Apply(s, step))
  {
    StepKeepsTerminals(s, step);
    if Starts(step) { StartKeepsEarned(s, step); }
    else if step.Execute? { ExecuteIsEarned(s); }
    else if Executes(step) { ExecutionKeepsEarned(s, step); }
    else { SettlementKeepsEarned(s, step); }
  }

  lemma StepKeepsEffects(s: System, step: Step)
    requires Invariant(s) && Enabled(s, step)
    ensures var s' := Apply(s, step);
      SerialsBelow(s') && EffectsMatchDisk(s') && ReportsAgree(s'.effects) && ActiveUploadsAgree(s'.effects)
  {
    StepKeepsMemorySerial(s, step);
    StepAppends(s, step);
    StepMovesDisk(s, step);
    StepSends(s, step);
    ShapeKeepsEffects(s, Apply(s, step));
  }

  lemma StepKeepsInvariant(s: System, step: Step)
    requires Invariant(s) && Enabled(s, step)
    ensures Invariant(Apply(s, step))
  {
    StepKeepsPc(s, step);
    StepKeepsDisk(s, step);
    StepKeepsAudit(s, step);
    StepKeepsEarned(s, step);
    StepKeepsAcknowledged(s, step);
    StepKeepsEffects(s, step);
  }

  // ------------------------------------------------------------ theorems

  lemma {:induction false} PrefixLegal(init: System, steps: seq<Step>, i: nat)
    requires Legal(init, steps) && i <= |steps|
    ensures Legal(init, steps[..i])
    decreases |steps|
  {
    if i < |steps| {
      var front := steps[..|steps| - 1];
      PrefixLegal(init, front, i);
      assert front[..i] == steps[..i];
    } else {
      assert steps[..i] == steps;
    }
  }

  /** The state after the first `i` steps. */
  ghost function At(init: System, steps: seq<Step>, i: nat): System
    requires Legal(init, steps) && i <= |steps|
  {
    PrefixLegal(init, steps, i);
    After(init, steps[..i])
  }

  lemma AtNext(init: System, steps: seq<Step>, i: nat)
    requires Legal(init, steps) && i < |steps|
    ensures Enabled(At(init, steps, i), steps[i])
    ensures At(init, steps, i + 1) == Apply(At(init, steps, i), steps[i])
  {
    PrefixLegal(init, steps, i + 1);
    assert steps[..i + 1][..i] == steps[..i];
  }

  lemma {:induction false} HistoryInvariant(init: System, steps: seq<Step>, i: nat)
    requires Initial(init) && Legal(init, steps) && i <= |steps|
    ensures Invariant(At(init, steps, i))
    decreases i
  {
    if i > 0 {
      HistoryInvariant(init, steps, i - 1);
      AtNext(init, steps, i - 1);
      StepKeepsInvariant(At(init, steps, i - 1), steps[i - 1]);
    }
  }

  /** Neither copy holds `x` any more, none ever will, and its one outcome was
      reported and audited first. */
  ghost predicate SettledAndGone(s: System, x: Inflight) {
    && x.serial < s.serials
    && (Stored(s).Some? ==> Stored(s).value.serial != x.serial)
    && (s.mem.inflight.Some? ==> s.mem.inflight.value.serial != x.serial)
    && exists o :: TerminalReport(x.serial, x.request.id, o, true) in s.effects
                   && HasRequestRecord(s.audit, x.request.id, o.status)
                   && (x.terminal.Some? ==> x.terminal == Some(o))
  }

  ghost predicate Lineage(s: System, x: Inflight) {
    (Stored(s).Some? && Continues(x, Stored(s).value)) || SettledAndGone(s, x)
  }

  lemma OnlyPersistMovesDisk(s: System, step: Step)
    requires PcInvariant(s) && Enabled(s, step)
    ensures step.Persist? ==> Apply(s, step).mem.inflight == s.mem.inflight
    ensures Stored(s) != Stored(Apply(s, step)) ==> step.Persist?
  {}

  lemma StepKeepsLineage(s: System, step: Step, x: Inflight)
    requires Invariant(s) && Enabled(s, step) && Lineage(s, x)
    ensures Lineage(Apply(s, step), x)
  {
    var s' := Apply(s, step);
    StepMovesDisk(s, step);
    StepMovesMemory(s, step);
    OnlyPersistMovesDisk(s, step);
    StepAppends(s, step);
    ShapeKeepsLineage(s, s', step, x);
  }

  lemma ShapeKeepsLineage(s: System, s': System, step: Step, x: Inflight)
    requires Invariant(s) && Lineage(s, x)
    requires MovesDisk(s, s') && OnlyAppends(s, s')
    requires s'.mem.inflight.Some? ==>
      || s'.mem.inflight.value.serial == s.serials
      || (step.Open? && s'.mem.inflight == Stored(s))
      || (s.mem.inflight.Some? && Continues(s.mem.inflight.value, s'.mem.inflight.value))
    requires Stored(s) != Stored(s') ==> step.Persist? && s'.mem.inflight == s.mem.inflight
    ensures Lineage(s', x)
  {
    if SettledAndGone(s, x) {
      var o :| TerminalReport(x.serial, x.request.id, o, true) in s.effects
               && HasRequestRecord(s.audit, x.request.id, o.status)
               && (x.terminal.Some? ==> x.terminal == Some(o));
      assert TerminalReport(x.serial, x.request.id, o, true) in s'.effects;
    } else {
      var y := Stored(s).value;
      if Stored(s').None? {
        assert Settled(s, y);
        assert TerminalReport(x.serial, x.request.id, y.terminal.value, true) in s'.effects;
      }
    }
  }

  lemma NextKeepsLineage(init: System, steps: seq<Step>, j: nat, x: Inflight)
    requires Initial(init) && Legal(init, steps) && j < |steps| && Lineage(At(init, steps, j), x)
    ensures Lineage(At(init, steps, j + 1), x)
  {
    HistoryInvariant(init, steps, j);
    AtNext(init, steps, j);
    StepKeepsLineage(At(init, steps, j), steps[j], x);
  }

  /**
  No in-flight request on disk is ever overwritten, loses a decision or is
  dropped unsettled: at any later point of the history the disk holds the same
  request with at least the same operation and terminal outcome, or that
  outcome was reported, the report was answered, it was audited, and the
  request never returns.
  */
  lemma {:induction false} InflightLineage(init: System, steps: seq<Step>, i: nat, j: nat)
    requires Initial(init) && Legal(init, steps) && i <= j <= |steps|
    requires Stored(At(init, steps, i)).Some?
    ensures Lineage(At(init, steps, j), Stored(At(init, steps, i)).value)
    decreases j
  {
    if i < j {
      InflightLineage(init, steps, i, j - 1);
      NextKeepsLineage(init, steps, j - 1, Stored(At(init, steps, i)).value);
    }
  }

  /**
  Once an operation is on disk, every upload call the history makes from then
  on for that in-flight request carries its recording ID and its boundary,
  however the recorded runs grow or finish and however often the daemon dies.
  */
  lemma UploadsStayPinned(init: System, steps: seq<Step>, i: nat, j: nat)
    requires Initial(init) && Legal(init, steps) && i <= j < |steps|
    requires Stored(At(init, steps, i)).Some? && Stored(At(init, steps, i)).value.operation.Some?
    ensures UploadsCarry(At(init, steps, j).effects, At(init, steps, j + 1).effects,
                         Stored(At(init, steps, i)).value)
  {
    InflightLineage(init, steps, i, j);
    HistoryInvariant(init, steps, j);
    AtNext(init, steps, j);
    StepSends(At(init, steps, j), steps[j]);
    ShapeUploads(At(init, steps, j), At(init, steps, j + 1), Stored(At(init, steps, i)).value);
  }

  /** The upload calls added for `x` carry its operation. */
  ghost predicate UploadsCarry(before: seq<Effect>, after: seq<Effect>, x: Inflight)
    requires x.operation.Some?
  {
    forall n :: |before| <= n < |after| && SerialOf(after[n]) == Some(x.serial)
                && (after[n].ActiveUpload? || after[n].FinalUpload?)
      ==> after[n].ActiveUpload? && Operation(after[n].recording, after[n].boundary) == x.operation.value
  }

  lemma ShapeUploads(s: System, s': System, x: Inflight)
    requires Sends(s, s') && Lineage(s, x) && x.operation.Some?
    ensures UploadsCarry(s.effects, s'.effects, x)
  {}

  /** A terminal outcome is reported only while it is on disk. */
  lemma ReportsAreDurable(init: System, steps: seq<Step>, j: nat, n: nat)
    requires Initial(init) && Legal(init, steps) && j < |steps|
    requires |At(init, steps, j).effects| <= n < |At(init, steps, j + 1).effects|
    requires At(init, steps, j + 1).effects[n].TerminalReport?
    ensures var call := At(init, steps, j + 1).effects[n];
      var disk := Stored(At(init, steps, j));
      disk.Some? && disk.value.serial == call.serial && disk.value.request.id == call.id
      && disk.value.terminal == Some(call.outcome)
  {
    HistoryInvariant(init, steps, j);
    AtNext(init, steps, j);
    StepSends(At(init, steps, j), steps[j]);
    ShapeReports(At(init, steps, j), At(init, steps, j + 1), n);
  }

  lemma ShapeReports(s: System, s': System, n: nat)
    requires Sends(s, s') && |s.effects| <= n < |s'.effects| && s'.effects[n].TerminalReport?
    ensures var call := s'.effects[n]; var disk := Stored(s);
      disk.Some? && disk.value.serial == call.serial && disk.value.request.id == call.id
      && disk.value.terminal == Some(call.outcome)
  {}

  /**
  A flush or seal is reported done only after an upload of that in-flight request
  was answered: at the pinned boundary when there is one, which the outcome then names,
  and of the finished run otherwise.
  */
  lemma DoneMeansUploaded(init: System, steps: seq<Step>, j: nat, n: nat)
    requires Initial(init) && Legal(init, steps) && j < |steps|
    requires |At(init, steps, j).effects| <= n < |At(init, steps, j + 1).effects|
    requires var call := At(init, steps, j + 1).effects[n]; call.TerminalReport? && call.outcome.status.Done?
    ensures var call := At(init, steps, j + 1).effects[n];
      var disk := Stored(At(init, steps, j));
      && disk.Some? && disk.value.serial == call.serial && disk.value.terminal == Some(call.outcome)
      && (disk.value.request.kind in {Flush, Seal} ==>
        && UploadAnswered(At(init, steps, j).effects, disk.value)
        && (disk.value.operation.Some? ==>
              call.outcome.detail.ActiveReport? && call.outcome.detail.boundary == disk.value.operation.value.boundary))
  {
    ReportsAreDurable(init, steps, j, n);
    HistoryInvariant(init, steps, j);
  }

  /** All terminal reports of one in-flight request agree, all its active
      uploads agree, and the audit log holds at most one record per request
      ID and status. */
  lemma EffectsAgree(init: System, steps: seq<Step>)
    requires Initial(init) && Legal(init, steps)
    ensures ReportsAgree(After(init, steps).effects)
    ensures ActiveUploadsAgree(After(init, steps).effects)
    ensures OneRecordPerOutcome(After(init, steps).audit)
  {
    assert steps[..|steps|] == steps;
    HistoryInvariant(init, steps, |steps|);
  }

  /** The copy in memory is not overwritten either: short of a crash it is
      replaced only by its own continuation, or dropped once settled. */
  lemma MemoryIsNotOverwritten(init: System, steps: seq<Step>, i: nat)
    requires Initial(init) && Legal(init, steps) && i < |steps|
    requires At(init, steps, i).mem.inflight.Some? && !steps[i].Crash? && !At(init, steps, i).pc.Down?
    ensures var s, s' := At(init, steps, i), At(init, steps, i + 1);
      if s'.mem.inflight.None? then Settled(s, s.mem.inflight.value)
      else Continues(s.mem.inflight.value, s'.mem.inflight.value)
  {
    HistoryInvariant(init, steps, i);
    AtNext(init, steps, i);
    StepMovesMemory(At(init, steps, i), steps[i]);
    StepDropsMemory(At(init, steps, i), steps[i]);
  }
}
