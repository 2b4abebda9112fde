/**
The collector daemon as it is written: an object whose methods change the
state in memory, replace the copy on disk and call the outside world. Answers
from outside are arbitrary. `history` names the protocol step behind every
change with the state it led to, and `Valid` says that the object is where that
history leads, so what `CollectorProtocol` proves of all histories holds of all
executions here (`TraceIsLegal`).
*/
module CollectorDaemons {
  import opened Options
  import opened CollectorProtocol

  const MAX_REQUESTS_PER_POLL: nat := 50

  // ------------------------------------------------------------ traces

  datatype Moment = Moment(step: Step, next: System)

  function Last(init: System, history: seq<Moment>): System {
    if history == [] then init else history[|history| - 1].next
  }

  ghost predicate Followed(init: System, history: seq<Moment>, k: nat)
    requires k < |history|
  {
    var s := Last(init, history[..k]);
    Enabled(s, history[k].step) && history[k].next == Apply(s, history[k].step)
  }

  ghost predicate Trace(init: System, history: seq<Moment>) {
    Initial(init) && forall k {:trigger Followed(init, history, k)} :: 0 <= k < |history| ==> Followed(init, history, k)
  }

  function Steps(history: seq<Moment>): seq<Step> {
    seq(|history|, k requires 0 <= k < |history| => history[k].step)
  }

  lemma TraceGrows(init: System, history: seq<Moment>, step: Step)
    requires Trace(init, history) && Enabled(Last(init, history), step)
    ensures var next := Apply(Last(init, history), step);
      Trace(init, history + [Moment(step, next)]) && Last(init, history + [Moment(step, next)]) == next
  {
    var longer := history + [Moment(step, Apply(Last(init, history), step))];
    forall k | 0 <= k < |longer| ensures Followed(init, longer, k) {
      if k < |history| {
        assert Followed(init, history, k) && longer[..k] == history[..k];
      } else {
        assert longer[..k] == history;
      }
    }
  }

  /** What an execution goes through is a legal history of the protocol. */
  lemma {:induction false} TraceIsLegal(init: System, history: seq<Moment>)
    requires Trace(init, history)
    ensures Legal(init, Steps(history)) && After(init, Steps(history)) == Last(init, history)
    decreases |history|
  {
    if history != [] {
      var n := |history| - 1;
      var front := history[..n];
      forall k | 0 <= k < n ensures Followed(init, front, k) {
        assert Followed(init, history, k) && front[..k] == history[..k];
      }
      TraceIsLegal(init, front);
      assert Followed(init, history, n);
      assert Steps(history)[..n] == Steps(front);
    }
  }

  // ------------------------------------------------------------- goals

  /** The platform answered the report of an outcome of the request, whose status is in the audit log. */
  ghost predicate Concluded(effects: seq<Effect>, audit: seq<AuditEntry>, request: Request) {
    exists serial, outcome ::
      TerminalReport(serial, request.id, outcome, true) in effects && HasRequestRecord(audit, request.id, outcome.status)
  }

  /** The request was acknowledged, that was answered, and it was concluded. */
  ghost predicate Served(effects: seq<Effect>, audit: seq<AuditEntry>, request: Request) {
    AckReport(request.id, true) in effects && Concluded(effects, audit, request)
  }

  lemma ServedStays(effects: seq<Effect>, audit: seq<AuditEntry>, later: seq<Effect>, longer: seq<AuditEntry>, request: Request)
    requires effects <= later && audit <= longer && Served(effects, audit, request)
    ensures Served(later, longer, request)
  {
    var serial, outcome :| TerminalReport(serial, request.id, outcome, true) in effects
      && HasRequestRecord(audit, request.id, outcome.status);
    assert TerminalReport(serial, request.id, outcome, true) in later;
    assert HasRequestRecord(longer, request.id, outcome.status);
    assert AckReport(request.id, true) in later;
  }

  lemma FailurePersists(s: System)
    requires s.pc == Failing && ValidState(s.mem)
    ensures Enabled(s, Persist)
    ensures var mem := s.mem.(failed := true);
      Apply(s, Persist) == s.(pc := CycleStart, mem := mem, disk := Some(mem))
  {}

  class CollectorDaemon {
    var state: DaemonState
    var stored: Option<DaemonState>
    var runs: map<string, RunStatus>
    var effects: seq<Effect>
    var audit: seq<AuditEntry>
    var torn: bool
    var installs: nat
    var up: bool                  // a process runs
    ghost const init: System
    ghost var pc: Pc
    ghost var history: seq<Moment>

    ghost function Snapshot(): System
      reads this
    {
      System(pc, state, stored, runs, effects, audit, torn, installs)
    }

    ghost predicate Valid()
      reads this
    {
      Trace(init, history) && Snapshot() == Last(init, history)
    }

    constructor (runs: map<string, RunStatus>, audit: seq<AuditEntry>)
      requires forall e :: e in audit ==> e.action == OtherAction
      ensures Valid() && pc == Down && !up && history == []
      ensures this.runs == runs && this.audit == audit && stored == None && effects == []
    {
      this.runs, this.audit, this.torn := runs, audit, false;
      state, stored, effects, installs, up := Blank, None, [], 0, false;
      pc, history := Down, [];
      init := System(Down, Blank, None, runs, [], audit, false, 0);
    }

    /** The cycle goes no further: an error ends it, or the process is gone. */
    ghost predicate Stopped()
      reads this
    {
      if up then pc == Failing else pc == Down
    }

    /** Names the step the fields have just taken. */
    ghost method Took(step: Step)
      requires Trace(init, history) && Enabled(Last(init, history), step)
      requires var next := Apply(Last(init, history), step); Snapshot().(pc := next.pc) == next
      modifies `pc, `history
      ensures Valid()
      ensures pc == Apply(Last(init, old(history)), step).pc
    {
      TraceGrows(init, history, step);
      var next := Apply(Last(init, history), step);
      pc := next.pc;
      history := history + [Moment(step, next)];
    }

    lemma Here()
      requires Valid()
      ensures Invariant(Snapshot())
    {
      var steps := Steps(history);
      TraceIsLegal(init, history);
      assert steps[..|steps|] == steps;
      HistoryInvariant(init, steps, |steps|);
    }

    /** While a call is awaited the recorded runs may grow, roll or finish. */
    method Await()
      requires Valid()
      modifies `runs, `pc, `history
      ensures Valid() && pc == old(pc)
    {
      var next: map<string, RunStatus> := *;
      if RunsMayBecome(runs, next) {
        runs := next;
        Took(RunsChange(next));
      }
    }

    /** `persist_state` inside a cycle: validate, then replace the file. */
    method PersistState() returns (ok: bool)
      requires Valid() && Persists(pc) && pc != Failing
      modifies `stored, `pc, `history
      ensures Valid()
      ensures if ok then stored == Some(state) && pc == AfterPersist(old(pc), state)
              else stored == old(stored) && pc == Failing
      ensures !ValidState(state) ==> !ok
    {
      var written: bool := *;
      ok := ValidState(state) && written;
      if ok {
        stored := Some(state);
        Took(Persist);
      } else {
        Took(Fail);
      }
    }

    /** The platform's version, in memory and, when the write succeeds, on disk. */
    method TakeVersion(version: int, written: bool)
      requires Valid() && Registers(pc) && version >= state.configVersion
      requires written ==> ValidState(state.(configVersion := version))
      modifies `state, `stored, `pc, `history
      ensures Valid() && state == old(state).(configVersion := version)
      ensures stored == if written then Some(state) else old(stored)
      ensures pc == if written then AfterRegister(old(pc), state) else Failing
    {
      state := state.(configVersion := version);
      if written {
        stored := Some(state);
      }
      Took(Register(version, written));
    }

    /** `ensure_registered`: skipped while the session is fresh, otherwise a
        platform answer moves the configuration version and is persisted. */
    method EnsureRegistered(forced: bool) returns (ok: bool)
      requires Valid() && Registers(pc) && (pc.Configuring? ==> forced)
      modifies `state, `stored, `pc, `history
      ensures Valid()
      ensures state.configVersion >= old(state).configVersion
      ensures state == old(state).(configVersion := state.configVersion)
      ensures stored == old(stored) || (ok && stored == Some(state))
      ensures pc == if ok then AfterRegister(old(pc), state) else Failing
    {
      var sessionValid: bool, version: int, written: bool := *, *, *;
      if sessionValid && !forced {
        return true;
      }
      if version < state.configVersion {
        Took(Fail);
        return false;
      }
      ok := ValidState(state.(configVersion := version)) && written;
      TakeVersion(version, ok);
    }

    // ------------------------------------------------- one step each

    /** A call failed; its error ends the cycle. */
    method Abort()
      requires Valid() && pc != Down && pc != Failing
      modifies `pc, `history
      ensures Valid() && pc == Failing
    {
      Took(Fail);
    }

    /** What the branches of a request in execution may rely on. */
    lemma HoldsRequest(request: Request)
      requires Valid()
      requires pc == Executing(request) || pc == Preparing(request) || pc == Uploading(request)
        || pc == FinalUploading(request) || (pc.Executed? && pc.request == request)
        || (pc.Reporting? && pc.request == request)
      ensures state.inflight.Some? && state.inflight.value.request == request
      ensures pc.Uploading? ==> state.inflight.value.operation.Some?
      ensures stored.Some? && stored.value.inflight == state.inflight
    {
      Here();
    }

    /** Takes the branch of `execute_request` that only memory decides. */
    method Branch(request: Request)
      requires Valid() && pc == Executing(request) && request.kind !in {Pause, Resume}
      modifies `pc, `history
      ensures Valid() && pc == ExecuteBranch(request, state, runs)
    {
      Took(Execute);
    }

    method SetPaused(request: Request)
      requires Valid() && pc == Executing(request) && request.kind in {Pause, Resume}
      modifies `state, `pc, `history
      ensures Valid() && pc == PauseSet(request)
      ensures state == old(state).(paused := request.kind.Pause?)
    {
      state := state.(paused := request.kind.Pause?);
      Took(Execute);
    }

    /** Abstract work of the other request kinds: any answer but an error. */
    method ConcludeOther(request: Request, outcome: Outcome)
      requires Valid() && pc == Executing(request) && request.kind in {Backfill, DeleteLocal}
      requires outcome.status != Acked
      modifies `pc, `history
      ensures Valid() && pc == Executed(request, outcome)
    {
      Took(ExecuteOther(outcome));
    }

    /** The writer's durable boundary becomes the operation, in memory. */
    method PinOperation(request: Request) returns (operation: Option<Operation>)
      requires Valid() && pc == Preparing(request) && request.recording.Some?
      requires request.recording.value in runs && runs[request.recording.value].Running?
      modifies `state, `pc, `history
      ensures Valid()
      ensures if operation.None? then pc == Executed(request, RejectedWith(NotActiveSegment))
        else
          && pc == OperationSet(request)
          && operation.value == Operation(request.recording.value, runs[request.recording.value].boundary)
          && state.inflight.Some? && state.inflight.value.operation == operation
    {
      HoldsRequest(request);
      var recording := request.recording.value;
      if runs[recording].current != recording {
        Took(Prepare);
        return None;
      }
      operation := Some(Operation(recording, runs[recording].boundary));
      state := state.(inflight := Some(state.inflight.value.(operation := operation)));
      Took(Prepare);
    }

    /** `flush_active_run_for` or `seal_active_run_for` with the pinned operation. */
    method UploadPinned(request: Request) returns (outcome: Option<Outcome>)
      requires Valid() && pc == Uploading(request)
      modifies `effects, `pc, `history
      ensures Valid()
      ensures if outcome.Some? then pc == Executed(request, outcome.value) else pc == Failing
      ensures state.inflight.Some? && state.inflight.value.operation.Some?
      ensures stored.Some? && stored.value.inflight == state.inflight
      ensures var i := state.inflight.value; var op := i.operation.value;
        && effects == old(effects) + [ActiveUpload(i.serial, op.recording, op.boundary, outcome.Some?)]
        && (outcome.Some? ==> outcome.value.detail.ActiveReport? && outcome.value.detail.boundary == op.boundary)
    {
      HoldsRequest(request);
      var i := state.inflight.value;
      var op := i.operation.value;
      var answer: Option<UploadAnswer> := *;
      effects := effects + [ActiveUpload(i.serial, op.recording, op.boundary, answer.Some?)];
      Took(UploadActive(answer));
      match answer {
        case None => outcome := None;
        case Some(a) => outcome := Some(DoneWith(ActiveReport(a.recording, op.boundary, a.acked, a.isSealed)));
      }
    }

    /** `upload_run` of a finished run. */
    method UploadFinished(request: Request) returns (outcome: Option<Outcome>)
      requires Valid() && pc == FinalUploading(request) && request.recording.Some?
      modifies `effects, `pc, `history
      ensures Valid()
      ensures if outcome.Some? then pc == Executed(request, outcome.value) else pc == Failing
      ensures state.inflight.Some?
      ensures effects == old(effects)
        + [FinalUpload(state.inflight.value.serial, request.recording.value, outcome.Some?)]
    {
      HoldsRequest(request);
      var answer: Option<UploadAnswer> := *;
      effects := effects + [FinalUpload(state.inflight.value.serial, request.recording.value, answer.Some?)];
      Took(UploadFinal(answer));
      match answer {
        case None => outcome := None;
        case Some(a) => outcome := Some(DoneWith(FinalReport(a.recording, a.acked, a.isSealed)));
      }
    }

    method SetTerminal(request: Request, outcome: Outcome)
      requires Valid() && pc == Executed(request, outcome)
      modifies `state, `pc, `history
      ensures Valid() && pc == TerminalSet(request, outcome)
      ensures state.inflight.Some? && state.inflight.value.terminal == Some(outcome)
    {
      HoldsRequest(request);
      state := state.(inflight := Some(state.inflight.value.(terminal := Some(outcome))));
      Took(CollectorProtocol.SetTerminal);
    }

    method Report(request: Request, outcome: Outcome) returns (answered: bool)
      requires Valid() && pc == Reporting(request, outcome)
      modifies `effects, `pc, `history
      ensures Valid()
      ensures pc == if answered then Auditing(request, outcome) else Failing
      ensures state.inflight.Some?
      ensures effects == old(effects) + [TerminalReport(state.inflight.value.serial, request.id, outcome, answered)]
    {
      HoldsRequest(request);
      answered := *;
      effects := effects + [TerminalReport(state.inflight.value.serial, request.id, outcome, answered)];
      Took(CollectorProtocol.Report(answered));
    }

    /** `audit_request_outcome`: look the record up, append it when absent. */
    method AuditRequestOutcome(request: Request, outcome: Outcome) returns (ok: bool)
      requires Valid() && pc == Auditing(request, outcome)
      modifies `audit, `torn, `pc, `history
      ensures Valid() && old(audit) <= audit
      ensures pc == if ok then Clearing else Failing
      ensures ok ==> HasRequestRecord(audit, request.id, outcome.status)
      ensures HasRequestRecord(old(audit), request.id, outcome.status) ==> audit == old(audit)
    {
      if torn {
        Took(Fail);
        return false;
      }
      var synced: bool, half: bool := *, *;
      var found := HasRequestRecord(audit, request.id, outcome.status);
      if !found && half {
        torn := true;
        Took(TearAudit);
        return false;
      }
      if !found {
        audit := audit + [AuditEntry(CollectorRequest, request.id, outcome.status)];
      }
      Took(Audit(synced));
      return synced;
    }

    method ClearInflight()
      requires Valid() && pc == Clearing
      modifies `state, `pc, `history
      ensures Valid() && pc == Cleared && state == old(state).(inflight := None)
    {
      state := state.(inflight := None);
      Took(Clear);
    }

    method Acknowledge(request: Request) returns (answered: bool)
      requires Valid() && pc == Ready && ValidRequest(request)
      modifies `effects, `pc, `history
      ensures Valid()
      ensures pc == if answered then Accepted(request) else Failing
      ensures effects == old(effects) + [AckReport(request.id, answered)]
    {
      answered := *;
      effects := effects + [AckReport(request.id, answered)];
      Took(Accept(request, answered));
    }

    method InstallInflight(request: Request)
      requires Valid() && pc == Accepted(request)
      modifies `state, `installs, `pc, `history
      ensures Valid() && pc == Installed(request)
      ensures old(state).inflight.None?
      ensures state == old(state).(inflight := Some(Inflight(request, None, None, old(installs))))
    {
      Here();
      state := state.(inflight := Some(Inflight(request, None, None, installs)));
      installs := installs + 1;
      Took(Install);
    }

    /** Decides how the cycle treats what was left in flight. */
    method FindInflight() returns (found: Option<Inflight>)
      requires Valid() && pc == CycleStart
      modifies `state, `pc, `history
      ensures Valid() && found == state.inflight && state == old(state).(failed := false)
      ensures match found
        case None => pc == Ready
        case Some(i) => if i.terminal.Some? then pc == Reporting(i.request, i.terminal.value)
                        else pc == Executing(i.request)
      ensures stored.Some? && stored.value.inflight == state.inflight
    {
      Here();
      found := state.inflight;
      state := state.(failed := false);
      if found.None? {
        Took(ResumeNothing);
      } else if found.value.terminal.Some? {
        Took(ResumeTerminal);
      } else {
        Took(ResumeExecute);
      }
    }

    /** Background uploads, segment rolls, retention and the heartbeat: they
        keep the error summary and write audit records of their own. */
    method Housekeeping() returns (ok: bool)
      requires Valid() && pc == Ready
      modifies `state, `stored, `audit, `pc, `history
      ensures Valid() && old(audit) <= audit
      ensures pc == if ok then Ready else Failing
    {
      var failed: bool, entries: seq<AuditEntry>, written: bool := *, *, *;
      if torn || !written || !ValidState(state) || exists e :: e in entries && e.action != OtherAction {
        Took(Fail);
        return false;
      }
      state := state.(failed := failed);
      stored := Some(state);
      audit := audit + entries;
      Took(CollectorProtocol.Housekeeping(failed, entries));
      return true;
    }

    /** Notes the error and persists what is in memory. */
    method PersistFailure()
      requires Valid() && pc == Failing && ValidState(state)
      modifies `state, `stored, `pc, `history
      ensures Valid() && pc == CycleStart
      ensures state == old(state).(failed := true) && stored == Some(state)
    {
      FailurePersists(Snapshot());
      state := state.(failed := true);
      stored := Some(state);
      Took(Persist);
    }

    /** A new process opens the state file it finds. */
    method Restart()
      requires Valid() && pc == Down
      modifies `state, `stored, `up, `pc, `history
      ensures Valid() && up && pc == CycleStart
      ensures state == (if old(stored).Some? then old(stored).value else Blank) && stored == Some(state)
    {
      Here();
      state := if stored.Some? then stored.value else Blank;
      stored := Some(state);
      up := true;
      Took(Open);
    }

    method Die()
      requires Valid()
      modifies `state, `up, `pc, `history
      ensures Valid() && pc == Down && !up
    {
      state, up := Blank, false;
      Took(Crash);
    }

    /** The process may be killed before any call that leaves it. */
    method Survive() returns (alive: bool)
      requires Valid()
      modifies `state, `up, `pc, `history
      ensures Valid()
      ensures if alive then state == old(state) && pc == old(pc) && up == old(up) else pc == Down && !up
    {
      alive := *;
      if !alive {
        Die();
      }
    }

    /** The error path of `run_collector`: note the error and persist what is
        in memory; when even that fails the process ends. */
    method RecordFailure() returns (alive: bool)
      requires Valid() && up && pc == Failing
      modifies `state, `stored, `up, `pc, `history
      ensures Valid()
      ensures up == alive
      ensures if alive then pc == CycleStart && state == old(state).(failed := true) && stored == Some(state)
              else pc == Down && stored == old(stored)
    {
      var written: bool := *;
      alive := ValidState(state) && written;
      if alive {
        PersistFailure();
      } else {
        Die();
      }
    }

    // ------------------------------------------------------ the program

    /** `persist_state` where the process may be killed first. */
    method Save() returns (ok: bool)
      requires Valid() && up && Persists(pc) && pc != Failing
      modifies `state, `up, `stored, `pc, `history
      ensures Valid()
      ensures if ok then up && state == old(state) && stored == Some(state) && pc == AfterPersist(old(pc), state)
              else stored == old(stored) && Stopped()
    {
      ok := Survive();
      if !ok { return; }
      ok := PersistState();
    }

    /** Pins the writer's durable boundary, in memory and then on disk. */
    method PinOnDisk(request: Request) returns (ok: bool, operation: Option<Operation>)
      requires Valid() && up && pc == Preparing(request) && request.recording.Some?
      requires request.recording.value in runs && runs[request.recording.value].Running?
      modifies `state, `up, `stored, `pc, `history
      ensures Valid()
      ensures if ok then up else Stopped()
      ensures ok && operation.Some? ==>
        && pc == Uploading(request)
        && stored == Some(state) && state.inflight.Some? && state.inflight.value.operation == operation
        && operation.value == Operation(request.recording.value, runs[request.recording.value].boundary)
      ensures ok && operation.None? ==> pc == Executed(request, RejectedWith(NotActiveSegment))
    {
      operation := PinOperation(request);
      if operation.None? {
        return true, None;
      }
      ok := Save();
    }

    /** Asks the writer for its durable boundary and pins that on disk; `None`
        when another segment is active. */
    method PrepareActiveRequestOperation(request: Request)
      returns (ok: bool, operation: Option<Operation>)
      requires Valid() && up && pc == Preparing(request)
      modifies `state, `up, `stored, `runs, `pc, `history
      ensures Valid()
      ensures !ok ==> Stopped()
      ensures ok ==> up
      ensures ok && operation.Some? ==>
        && pc == Uploading(request)
        && stored == Some(state) && state.inflight.Some? && state.inflight.value.operation == operation
        && request.recording.Some? && request.recording.value in runs
        && runs[request.recording.value].Running?
        && operation.value == Operation(request.recording.value, runs[request.recording.value].boundary)
      ensures ok && operation.None? ==> pc == Executed(request, RejectedWith(NotActiveSegment))
    {
      Await();
      var recording := request.recording;
      if recording.None? || recording.value !in runs || !runs[recording.value].Running? {
        Abort();
        return false, None;
      }
      ok, operation := PinOnDisk(request);
    }

    /** Uploads at the pinned boundary, unless the process is killed before. */
    method UploadActiveRun(request: Request) returns (outcome: Option<Outcome>)
      requires Valid() && up && pc == Uploading(request)
      modifies `state, `up, `effects, `pc, `history
      ensures Valid() && old(effects) <= effects
      ensures if outcome.Some? then up && pc == Executed(request, outcome.value) else Stopped()
    {
      var ok := Survive();
      if !ok {
        return None;
      }
      outcome := UploadPinned(request);
    }

    method UploadFinishedRun(request: Request) returns (outcome: Option<Outcome>)
      requires Valid() && up && pc == FinalUploading(request) && request.recording.Some?
      modifies `state, `up, `effects, `pc, `history
      ensures Valid() && old(effects) <= effects
      ensures if outcome.Some? then up && pc == Executed(request, outcome.value) else Stopped()
    {
      var ok := Survive();
      if !ok {
        return None;
      }
      outcome := UploadFinished(request);
    }

    /** The flush and seal branch of `execute_request`. */
    method ExecuteUpload(request: Request) returns (outcome: Option<Outcome>)
      requires Valid() && up && pc == Executing(request) && request.kind in {Flush, Seal}
      modifies `state, `up, `stored, `runs, `effects, `pc, `history
      ensures Valid() && old(effects) <= effects
      ensures if outcome.Some? then up && pc == Executed(request, outcome.value) else Stopped()
    {
      HoldsRequest(request);
      Branch(request);
      if state.paused {
        return Some(RejectedWith(UploadsPaused));
      }
      if request.recording.None? {
        return Some(RejectedWith(InvalidRecording));
      }
      var recording := request.recording.value;
      if recording !in runs {
        return Some(RejectedWith(NotPresent));
      }
      var run, operation := runs[recording], state.inflight.value.operation;
      if operation.Some? {
        if operation.value.recording != recording {
          return None;
        }
        outcome := UploadActiveRun(request);
      } else if run.Running? {
        var ok, prepared := PrepareActiveRequestOperation(request);
        if !ok {
          return None;
        }
        if prepared.None? {
          return Some(RejectedWith(NotActiveSegment));
        }
        outcome := UploadActiveRun(request);
      } else if run.current != recording {
        return Some(RejectedWith(NotFinalSegment));
      } else {
        outcome := UploadFinishedRun(request);
      }
    }

    method ExecuteConfig(request: Request) returns (outcome: Option<Outcome>)
      requires Valid() && up && pc == Executing(request) && request.kind.ApplyConfig?
      modifies `state, `up, `stored, `pc, `history
      ensures Valid()
      ensures if outcome.Some? then up && pc == Executed(request, outcome.value) else Stopped()
      ensures outcome.Some? && outcome.value.status == Done ==> request.version == Some(state.configVersion)
    {
      Branch(request);
      if request.version.None? || request.version.value < 0 {
        return Some(RejectedWith(InvalidConfigVersion));
      }
      var ok := Survive();
      if !ok {
        return None;
      }
      ok := EnsureRegistered(true);
      if !ok {
        return None;
      }
      if request.version.value != state.configVersion {
        return Some(RejectedWith(ConfigUnavailable));
      }
      outcome := Some(DoneWith(ConfigIs(state.configVersion)));
    }

    method ExecutePause(request: Request) returns (outcome: Option<Outcome>)
      requires Valid() && up && pc == Executing(request) && request.kind in {Pause, Resume}
      modifies `state, `up, `stored, `pc, `history
      ensures Valid()
      ensures if outcome.Some? then up && pc == Executed(request, outcome.value) else Stopped()
      ensures outcome.Some? ==>
        && state == old(state).(paused := request.kind.Pause?) && stored == Some(state)
        && outcome.value == DoneWith(PausedIs(state.paused))
      ensures outcome.None? ==> stored == old(stored)
    {
      SetPaused(request);
      var ok := Save();
      outcome := if ok then Some(DoneWith(PausedIs(state.paused))) else None;
    }

    /** Any answer of the work that is not modelled here, an error included. */
    method ExecuteOtherWork(request: Request) returns (outcome: Option<Outcome>)
      requires Valid() && up && pc == Executing(request) && request.kind in {Backfill, DeleteLocal}
      modifies `state, `up, `pc, `history
      ensures Valid()
      ensures if outcome.Some? then up && pc == Executed(request, outcome.value) else Stopped()
    {
      var ok := Survive();
      if !ok {
        return None;
      }
      outcome := *;
      if outcome.Some? && outcome.value.status != Acked {
        ConcludeOther(request, outcome.value);
      } else {
        Abort();
        outcome := None;
      }
    }

    method ExecuteRequest(request: Request) returns (outcome: Option<Outcome>)
      requires Valid() && up && pc == Executing(request)
      modifies `state, `up, `stored, `runs, `effects, `pc, `history
      ensures Valid() && old(effects) <= effects
      ensures if outcome.Some? then up && pc == Executed(request, outcome.value) else Stopped()
    {
      match request.kind {
        case Pause =>
          outcome := ExecutePause(request);
        case Resume =>
          outcome := ExecutePause(request);
        case ApplyConfig =>
          outcome := ExecuteConfig(request);
        case Flush =>
          outcome := ExecuteUpload(request);
        case Seal =>
          outcome := ExecuteUpload(request);
        case UploadSensitive =>
          Branch(request);
          outcome := Some(RejectedWith(SensitiveDisabled));
        case Unsupported =>
          Branch(request);
          outcome := Some(RejectedWith(UnsupportedKind));
        case _ =>
          outcome := ExecuteOtherWork(request);
      }
    }

    /** Makes an outcome durable. */
    method MakeDurable(request: Request, outcome: Outcome) returns (ok: bool)
      requires Valid() && up && pc == Executed(request, outcome)
      modifies `state, `up, `stored, `pc, `history
      ensures Valid()
      ensures if ok then up && pc == Reporting(request, outcome) else Stopped()
      ensures ok ==> stored == Some(state) && state.inflight.Some?
                     && state.inflight.value.terminal == Some(outcome)
    {
      SetTerminal(request, outcome);
      ok := Save();
    }

    /** Runs the in-flight request and makes its outcome durable. */
    method Decide(request: Request) returns (ok: bool, outcome: Outcome)
      requires Valid() && up && pc == Executing(request)
      modifies `state, `up, `stored, `runs, `effects, `pc, `history
      ensures Valid() && old(effects) <= effects
      ensures if ok then up && pc == Reporting(request, outcome) else Stopped()
      ensures ok ==> stored == Some(state) && state.inflight.Some?
                     && state.inflight.value.terminal == Some(outcome)
    {
      outcome := RejectedWith(NoReason);
      var result := ExecuteRequest(request);
      if result.None? {
        return false, outcome;
      }
      outcome := result.value;
      ok := MakeDurable(request, outcome);
    }

    /** Refreshes the registration, unless the process is killed before. */
    method Refresh() returns (ok: bool)
      requires Valid() && up && (pc == CycleStart || pc == Ready || pc.Reporting?)
      modifies `state, `up, `stored, `pc, `history
      ensures Valid()
      ensures if ok then up && pc == old(pc) && state == old(state).(configVersion := state.configVersion)
              else Stopped()
    {
      ok := Survive();
      if !ok { return; }
      ok := EnsureRegistered(false);
    }

    /** Reports a durable outcome. */
    method Tell(request: Request, outcome: Outcome) returns (ok: bool)
      requires Valid() && up && pc == Reporting(request, outcome)
      modifies `state, `up, `effects, `pc, `history
      ensures Valid() && old(effects) <= effects
      ensures if ok then up && pc == Auditing(request, outcome) else Stopped()
      ensures ok ==> exists serial :: TerminalReport(serial, request.id, outcome, true) in effects
    {
      ok := Survive();
      if !ok { return; }
      ok := Report(request, outcome);
      assert effects[|effects| - 1] == TerminalReport(state.inflight.value.serial, request.id, outcome, ok);
    }

    /** Reports a durable outcome and, once that is answered, puts it in the audit log. */
    method Announce(request: Request, outcome: Outcome) returns (ok: bool)
      requires Valid() && up && pc == Reporting(request, outcome)
      modifies `state, `up, `effects, `audit, `torn, `pc, `history
      ensures Valid() && old(effects) <= effects && old(audit) <= audit
      ensures if ok then up && pc == Clearing else Stopped()
      ensures ok ==> Concluded(effects, audit, request)
    {
      ok := Tell(request, outcome);
      if !ok { return; }
      ok := Survive();
      if !ok { return; }
      ok := AuditRequestOutcome(request, outcome);
    }

    /** Forgets the settled request, in memory and then on disk. */
    method Drop() returns (ok: bool)
      requires Valid() && up && pc == Clearing
      modifies `state, `up, `stored, `pc, `history
      ensures Valid()
      ensures if ok then up && pc == Ready else Stopped()
      ensures ok ==> state == old(state).(inflight := None) && stored == Some(state)
    {
      ClearInflight();
      ok := Save();
    }

    /** From an outcome on disk to a settled request: report, audit, clear. */
    method Settle(request: Request, outcome: Outcome) returns (ok: bool)
      requires Valid() && up && pc == Reporting(request, outcome)
      modifies `state, `up, `stored, `effects, `audit, `torn, `pc, `history
      ensures Valid() && old(effects) <= effects && old(audit) <= audit
      ensures if ok then up && pc == Ready else Stopped()
      ensures ok ==> stored == Some(state) && state.inflight.None? && Concluded(effects, audit, request)
    {
      ok := Refresh();
      if !ok { return; }
      ok := Announce(request, outcome);
      if !ok { return; }
      ok := Drop();
    }

    /** From a request in execution to a settled one. */
    method Finish(request: Request) returns (ok: bool)
      requires Valid() && up && pc == Executing(request)
      modifies this
      ensures Valid() && old(effects) <= effects && old(audit) <= audit
      ensures if ok then up && pc == Ready else Stopped()
      ensures ok ==> stored == Some(state) && state.inflight.None? && Concluded(effects, audit, request)
    {
      var outcome;
      ok, outcome := Decide(request);
      if !ok { return; }
      ok := Settle(request, outcome);
    }

    method ResumeInflight() returns (ok: bool)
      requires Valid() && up && pc == CycleStart
      modifies this
      ensures Valid() && old(effects) <= effects && old(audit) <= audit
      ensures if ok then up && pc == Ready else Stopped()
      ensures ok ==> state.inflight.None? && stored.Some? && stored.value.inflight.None?
      ensures ok && old(state).inflight.Some? ==> Concluded(effects, audit, old(state).inflight.value.request)
    {
      var found := FindInflight();
      if found.None? {
        return true;
      }
      if found.value.terminal.Some? {
        ok := Settle(found.value.request, found.value.terminal.value);
      } else {
        ok := Finish(found.value.request);
      }
    }

    /** Acknowledges a request, unless the process is killed before. */
    method Greet(request: Request) returns (ok: bool)
      requires Valid() && up && pc == Ready && ValidRequest(request)
      modifies `state, `up, `effects, `pc, `history
      ensures Valid() && old(effects) <= effects
      ensures if ok then up && pc == Accepted(request) && state == old(state) else Stopped()
      ensures ok ==> effects == old(effects) + [AckReport(request.id, true)]
    {
      ok := Survive();
      if !ok { return; }
      ok := Acknowledge(request);
    }

    /** Acknowledges a request and, once that is answered, puts it in flight on disk. */
    method Begin(request: Request) returns (ok: bool)
      requires Valid() && up && pc == Ready && ValidRequest(request)
      modifies `state, `up, `stored, `effects, `installs, `pc, `history
      ensures Valid() && old(effects) <= effects
      ensures if ok then up && pc == Executing(request) else Stopped()
      ensures ok ==>
        && effects == old(effects) + [AckReport(request.id, true)] && stored == Some(state)
        && old(state).inflight.None? && state.inflight == Some(Inflight(request, None, None, old(installs)))
    {
      ok := Greet(request);
      if !ok { return; }
      InstallInflight(request);
      ok := Save();
    }

    method ProcessRequest(request: Request) returns (ok: bool)
      requires Valid() && up && pc == Ready
      modifies this
      ensures Valid() && old(effects) <= effects && old(audit) <= audit
      ensures if ok then up && pc == Ready else Stopped()
      ensures ok ==> Served(effects, audit, request)
      ensures !ValidRequest(request) ==> !ok && effects == old(effects) && state == old(state)
      ensures ok ==> state.inflight.None? && stored == Some(state)
    {
      if !ValidRequest(request) {
        Abort();
        return false;
      }
      ok := Begin(request);
      if !ok { return; }
      assert effects[|effects| - 1] == AckReport(request.id, true);
      ghost var sent := effects;
      ok := Finish(request);
      assert AckReport(request.id, true) in sent && sent <= effects;
    }

    method ProcessAll(requests: seq<Request>) returns (ok: bool)
      requires Valid() && up && pc == Ready
      modifies this
      ensures Valid()
      ensures if ok then up && pc == Ready else Stopped()
      ensures ok ==> forall k :: 0 <= k < |requests| ==> Served(effects, audit, requests[k])
    {
      ok := true;
      for n := 0 to |requests|
        invariant Valid() && up && pc == Ready
        invariant forall k :: 0 <= k < n ==> Served(effects, audit, requests[k])
      {
        ghost var sent, noted := effects, audit;
        ok := ProcessRequest(requests[n]);
        if !ok { return; }
        forall k | 0 <= k < n ensures Served(effects, audit, requests[k]) {
          ServedStays(sent, noted, effects, audit, requests[k]);
        }
      }
      ok := true;
    }

    method TidyUp() returns (ok: bool)
      requires Valid() && up && pc == Ready
      modifies `state, `up, `stored, `audit, `pc, `history
      ensures Valid() && old(audit) <= audit
      ensures if ok then up && pc == Ready else Stopped()
    {
      ok := Survive();
      if !ok { return; }
      ok := Housekeeping();
    }

    /** What a cycle does before it polls. */
    method OpenCycle() returns (ok: bool)
      requires Valid() && up && pc == CycleStart
      modifies this
      ensures Valid()
      ensures if ok then up && pc == Ready else Stopped()
    {
      ok := Refresh();
      if !ok { return; }
      ok := ResumeInflight();
      if !ok { return; }
      ok := TidyUp();
    }

    method Cycle(requests: seq<Request>) returns (ok: bool)
      requires Valid() && up && pc == CycleStart
      modifies this
      ensures Valid()
      ensures if ok then up && pc == CycleStart else Stopped()
      ensures ok ==> forall k :: 0 <= k < |requests| ==> Served(effects, audit, requests[k])
      ensures |requests| > MAX_REQUESTS_PER_POLL ==> !ok
    {
      ok := OpenCycle();
      if !ok { return; }
      if |requests| > MAX_REQUESTS_PER_POLL {
        Abort();
        return false;
      }
      ok := ProcessAll(requests);
      if !ok { return; }
      ok := Refresh();
      if !ok { return; }
      Took(EndCycle);
    }

    /** A cycle and what follows it: the error path, or a new process. */
    method CycleOrRestart(requests: seq<Request>)
      requires Valid() && up && pc == CycleStart
      modifies this
      ensures Valid() && up && pc == CycleStart
    {
      var ok := Cycle(requests);
      var alive := up;
      if alive {
        alive := Survive();
      }
      if alive && !ok {
        alive := RecordFailure();
      }
      if !alive {
        Restart();
      }
    }

    /**
    `run_collector` over any number of cycles, failures, deaths and restarts.
    Whatever happens, each in-flight request was reported with one outcome and
    uploaded at one boundary, each of its statuses is audited once, and what is
    on disk can be opened again.
    */
    method RunCollector(polls: seq<seq<Request>>)
      requires Valid() && pc == Down
      modifies this
      ensures Valid()
      ensures ReportsAgree(effects) && ActiveUploadsAgree(effects) && OneRecordPerOutcome(audit)
      ensures stored.Some? && ValidState(stored.value)
    {
      Restart();
      for n := 0 to |polls|
        invariant Valid() && up && pc == CycleStart
      {
        CycleOrRestart(polls[n]);
      }
      Here();
    }
  }
}
