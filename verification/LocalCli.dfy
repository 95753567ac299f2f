/** A running executor process: judged by polling, and put down step by step once judged.
    Times are microseconds; a written time stamp keeps whole seconds only. */
module LocalCli {
  import opened Options

  const SECOND: int := 1_000_000
  const TERM_GRACE: int := 5
  const KILL_GRACE: int := 2
  const DENIED_LIMIT: int := 60
  const COMMIT_GRACE: int := 30
  const TERM_CODE: int := 128 + 15
  const KILL_CODE: int := 128 + 9

  datatype Signal = SigTerm | SigKill

  /** What `killpg` did: delivered the signal, found no process, or was not allowed to. */
  datatype KillResult = Delivered | Gone | Denied

  datatype Status = EvidencePack | Blocked | Committed

  /** The branch of the arbitration that made the receipt. */
  datatype Reason =
    | StructuredLog | CleanExit | ErrorExit | ReportSalvaged | ReportMissing | PostCommitHang | DiedWithCommit
    | DiedWithoutReceipt | WaitingForInput | SessionLost

  datatype Receipt = Receipt(status: Status, reason: Reason, detail: string)

  const LOST: Receipt := Receipt(Blocked, SessionLost, "Executor temp directory missing, task is lost.")

  datatype RcFile = Absent | Malformed | Code(code: int)

  /** How far the process has been put down: when the last signal was stamped, which one it was, and how many
      signals were refused. */
  datatype Escalation = Escalation(requestedAt: Option<int>, signal: Option<Signal>, denied: nat)

  /** What was written down when the executor was started; `named` says that the session's directory has a name of
      agpair's own. */
  datatype Setup = Setup(named: bool, hasProcess: bool, inRepo: bool, readonly: bool, salvage: bool, startHead: Option<string>)

  /** The persisted state of a session. `present` says that its directory still exists. */
  datatype State = State(
    present: bool, setup: Setup, currentHead: Option<string>, exitCode: Option<int>, isProcessAlive: bool, hasCommitted: bool,
    commitDetectedAt: Option<int>, cached: Option<Receipt>, arbitrationRc: Option<int>, escalation: Escalation)

  /** What a step finds outside: the clock at four moments of the step, two looks at the process, the outcome of
      `killpg` and the look after a refusal, the exit code file, the repository and the logs. */
  datatype Env = Env(
    polled: nat, checked: nat, sent: nat, stamped: nat, processAlive: bool, groupAlive: bool, kill: KillResult,
    recheckAlive: bool, rc: RcFile, head: Option<string>, hasDiff: bool, ownsCommit: bool,
    structured: Option<Receipt>, hasReport: bool, waiting: bool, detail: string)

  function Stamp(time: nat): int {
    time / SECOND
  }

  function Since(now: int, stamp: int): int {
    now - stamp * SECOND
  }

  // ----- putting the process down, as a function -----

  /** `rc` is the arbitration code; `signal` what was delivered in this step. */
  datatype Attempt = Attempt(escalation: Escalation, alive: bool, rc: Option<int>, signal: Option<Signal>)

  function RefusedAttempt(e: Escalation, env: Env, code: int): Attempt {
    if !env.recheckAlive then Attempt(e, false, Some(code), None)
    else
      var counted := e.(denied := e.denied + 1);
      if counted.denied >= DENIED_LIMIT then Attempt(counted, false, Some(code), None)
      else Attempt(counted, true, None, None)
  }

  function SignalAttempt(e: Escalation, env: Env, signal: Signal): Attempt {
    var code := if signal == SigTerm then TERM_CODE else KILL_CODE;
    match env.kill
    case Gone => Attempt(e, false, Some(TERM_CODE), None)
    case Denied => RefusedAttempt(e, env, code)
    case Delivered =>
      Attempt(Escalation(Some(Stamp(env.stamped)), Some(signal), e.denied), true, Some(code), Some(signal))
  }

  /** One step of putting the process down. */
  function PutDown(s: State, env: Env): Attempt {
    var e := s.escalation;
    if !s.setup.hasProcess then Attempt(e, false, None, None)
    else if !env.groupAlive then Attempt(e, false, s.arbitrationRc, None)
    else if e.requestedAt.None? then SignalAttempt(e, env, SigTerm)
    else if e.signal == Some(SigKill) then
      Attempt(e, Since(env.checked, e.requestedAt.value) <= KILL_GRACE * SECOND, Some(KILL_CODE), None)
    else if Since(env.checked, e.requestedAt.value) < TERM_GRACE * SECOND then Attempt(e, true, Some(TERM_CODE), None)
    else SignalAttempt(e, env, SigKill)
  }

  // ----- judging the session, as a function -----

  /** The first two layers of a poll: liveness and exit code. */
  function Observed(s: State, env: Env): State {
    var code := if s.exitCode.Some? then s.exitCode
                else match env.rc case Absent => None case Malformed => Some(1) case Code(n) => Some(n);
    s.(exitCode := code, isProcessAlive := s.setup.hasProcess && env.processAlive && code.None?)
  }

  /** The third layer: has the executor committed? */
  function Inspected(s: State, env: Env): State {
    if !s.setup.inRepo then s
    else
      var seen := s.(currentHead := env.head);
      if env.head.None? || env.head == s.setup.startHead || s.hasCommitted then seen
      else if (s.setup.startHead.None? || env.hasDiff) && env.ownsCommit then
        seen.(hasCommitted := true,
              commitDetectedAt := if s.commitDetectedAt.Some? then s.commitDetectedAt else Some(Stamp(env.polled)))
      else seen
  }

  function ExitVerdict(s: State, env: Env, code: int): Receipt {
    if env.structured.Some? then env.structured.value.(reason := StructuredLog)
    else if code == 0 && s.hasCommitted then Receipt(Committed, CleanExit, env.detail)
    else if s.setup.salvage && env.hasReport then Receipt(EvidencePack, ReportSalvaged, env.detail)
    else if code != 0 then Receipt(Blocked, ErrorExit, env.detail)
    else if s.setup.readonly then Receipt(Blocked, ReportMissing, env.detail)
    else Receipt(EvidencePack, CleanExit, env.detail)
  }

  function DeathVerdict(s: State, env: Env): Receipt {
    if s.hasCommitted then Receipt(Committed, DiedWithCommit, env.detail)
    else if s.setup.salvage && env.hasReport then Receipt(EvidencePack, ReportSalvaged, env.detail)
    else Receipt(Blocked, if s.setup.readonly then ReportMissing else DiedWithoutReceipt, env.detail)
  }

  /** `_arbitrate`: the verdict, or none while the executor goes on working. */
  function Arbitrate(s: State, env: Env): Option<Receipt> {
    if s.exitCode.Some? then Some(ExitVerdict(s, env, s.exitCode.value))
    else if s.hasCommitted && s.commitDetectedAt.Some? && Since(env.polled, s.commitDetectedAt.value) > COMMIT_GRACE * SECOND then
      Some(Receipt(Committed, PostCommitHang, env.detail))
    else if !s.isProcessAlive then Some(DeathVerdict(s, env))
    else if env.waiting then Some(Receipt(Blocked, WaitingForInput, env.detail))
    else None
  }

  /** A poll's report: done with a receipt, or still running. */
  datatype Report = Running | Done(receipt: Receipt)

  datatype Polled = Polled(state: State, report: Report, signal: Option<Signal>)

  function Finished(s: State, receipt: Receipt, signal: Option<Signal>): Polled {
    Polled(s.(isProcessAlive := false, cached := None), Done(receipt), signal)
  }

  /** A session that has been judged is put down before its receipt is reported; the receipt waits meanwhile. */
  function Concluded(s: State, receipt: Receipt, env: Env): Polled {
    if !s.isProcessAlive then Finished(s, receipt, None)
    else
      var a := PutDown(s, env);
      var kept := s.(escalation := a.escalation, isProcessAlive := a.alive,
                     arbitrationRc := if s.arbitrationRc.Some? then s.arbitrationRc else a.rc);
      if a.alive then Polled(kept.(cached := Some(receipt)), Running, a.signal)
      else Finished(kept, receipt, a.signal)
  }

  function Poll(s: State, env: Env): Polled {
    if !s.present then Polled(s, Done(LOST), None)
    else
      var seen := Inspected(Observed(s, env), env);
      var verdict := if seen.cached.Some? then seen.cached else Arbitrate(seen, env);
      if verdict.None? then Polled(seen, Running, None) else Concluded(seen, verdict.value, env)
  }

  /** `cancel` */
  function Cancelled(s: State, env: Env): Polled {
    if !s.present then Polled(s, Running, None)
    else
      var a := PutDown(s, env);
      var code := if a.rc.Some? then a.rc else if s.arbitrationRc.Some? then s.arbitrationRc else Some(TERM_CODE);
      Polled(s.(escalation := a.escalation, arbitrationRc := code, isProcessAlive := a.alive), Running, a.signal)
  }

  /** `cleanup`: a directory of agpair's own goes once the process is down. */
  function Cleaned(s: State, env: Env): Polled {
    if !s.present || !s.setup.named then Polled(s, Running, None)
    else if !(s.setup.hasProcess && env.processAlive) then Polled(s.(present := false), Running, None)
    else
      var a := PutDown(s, env);
      var code := if a.rc.Some? then a.rc else s.arbitrationRc;
      Polled(s.(escalation := a.escalation, arbitrationRc := code, isProcessAlive := a.alive, present := a.alive),
             Running, a.signal)
  }

  /** What one step adds to the record of delivered signals. */
  function Log(signal: Option<Signal>, env: Env): seq<(Signal, nat)> {
    if signal.Some? then [(signal.value, env.sent)] else []
  }

  function Fresh(setup: Setup): State {
    State(true, setup, None, None, true, false, None, None, None,
          Escalation(None, None, 0))
  }

  // ----- the session itself -----

  /** A session directory with its persisted state. */
  class Session {
    var state: State

    /** Every signal delivered to the process, with the moment of delivery. */
    ghost var delivered: seq<(Signal, nat)>

    constructor (setup: Setup)
      ensures state == Fresh(setup)
      ensures delivered == []
    {
      state := Fresh(setup);
      delivered := [];
    }

    /** May the process be treated as dead after a refused signal? */
    method HandleSignalPermissionError(env: Env) returns (dead: bool)
      modifies this`state
      ensures var a := RefusedAttempt(old(state.escalation), env, 0);
        state == old(state).(escalation := a.escalation) && dead == !a.alive
    {
      if !env.recheckAlive {
        return true;
      }
      var count := state.escalation.denied + 1;
      state := state.(escalation := state.escalation.(denied := count));
      return count >= DENIED_LIMIT;
    }

    /** Sends one signal and records it. */
    method SendSignal(env: Env, signal: Signal) returns (alive: bool, rc: Option<int>)
      modifies this
      ensures var a := SignalAttempt(old(state.escalation), env, signal);
        && state == old(state).(escalation := a.escalation) && alive == a.alive && rc == a.rc
        && delivered == old(delivered) + Log(a.signal, env)
    {
      var code := if signal == SigTerm then TERM_CODE else KILL_CODE;
      match env.kill
      case Gone => return false, Some(TERM_CODE);
      case Denied =>
        var dead := HandleSignalPermissionError(env);
        if dead {
          return false, Some(code);
        }
        return true, None;
      case Delivered =>
        delivered := delivered + [(signal, env.sent)];
        var e := Escalation(Some(Stamp(env.stamped)), Some(signal), state.escalation.denied);
        state := state.(escalation := e);
        return true, Some(code);
    }

    method EnsureProcessDead(env: Env) returns (alive: bool, rc: Option<int>)
      modifies this
      ensures var a := PutDown(old(state), env);
        && state == old(state).(escalation := a.escalation) && alive == a.alive && rc == a.rc
        && delivered == old(delivered) + Log(a.signal, env)
    {
      if !state.setup.hasProcess {
        return false, None;
      }
      if !env.groupAlive {
        return false, state.arbitrationRc;
      }
      var requestedAt, signal := state.escalation.requestedAt, state.escalation.signal;
      if requestedAt.None? {
        alive, rc := SendSignal(env, SigTerm);
        return;
      }
      if signal == Some(SigKill) {
        return Since(env.checked, requestedAt.value) <= KILL_GRACE * SECOND, Some(KILL_CODE);
      }
      if Since(env.checked, requestedAt.value) < TERM_GRACE * SECOND {
        return true, Some(TERM_CODE);
      }
      alive, rc := SendSignal(env, SigKill);
    }

    /** Liveness and exit code. */
    method ObserveProcess(env: Env)
      modifies this`state
      ensures state == Observed(old(state), env)
    {
      state := state.(isProcessAlive := state.setup.hasProcess && env.processAlive);
      if state.exitCode.None? {
        match env.rc
        case Absent =>
        case Malformed => state := state.(exitCode := Some(1));
        case Code(n) => state := state.(exitCode := Some(n));
      }
      if state.exitCode.Some? {
        state := state.(isProcessAlive := false);
      }
    }

    /** Commits since the start. */
    method ObserveRepository(env: Env)
      modifies this`state
      ensures state == Inspected(old(state), env)
    {
      if state.setup.inRepo {
        state := state.(currentHead := env.head);
        if env.head.Some? && (state.setup.startHead.None? || env.head != state.setup.startHead) && !state.hasCommitted {
          var genuine := state.setup.startHead.None? || env.hasDiff;
          if genuine && !env.ownsCommit {
            genuine := false;
          }
          state := state.(hasCommitted := genuine);
          if genuine && state.commitDetectedAt.None? {
            state := state.(commitDetectedAt := Some(Stamp(env.polled)));
          }
        }
      }
    }

    method Conclude(receipt: Receipt, env: Env) returns (report: Report)
      modifies this
      ensures var p := Concluded(old(state), receipt, env);
        state == p.state && report == p.report && delivered == old(delivered) + Log(p.signal, env)
    {
      hide PutDown;
      if state.isProcessAlive {
        var alive, rc := EnsureProcessDead(env);
        if rc.Some? && state.arbitrationRc.None? {
          state := state.(arbitrationRc := rc);
        }
        state := state.(isProcessAlive := alive);
        if alive {
          state := state.(cached := Some(receipt));
          return Running;
        }
      }
      state := state.(isProcessAlive := false, cached := None);
      return Done(receipt);
    }

    method PollOnce(env: Env) returns (report: Report)
      modifies this
      ensures var p := Poll(old(state), env);
        state == p.state && report == p.report && delivered == old(delivered) + Log(p.signal, env)
    {
      hide Concluded;
      hide Observed;
      hide Inspected;
      hide Arbitrate;
      if !state.present {
        return Done(LOST);
      }
      ObserveProcess(env);
      ObserveRepository(env);
      var verdict := state.cached;
      if verdict.None? {
        verdict := Arbitrate(state, env);
      }
      if verdict.Some? {
        report := Conclude(verdict.value, env);
        return;
      }
      return Running;
    }

    method Cancel(env: Env)
      modifies this
      ensures var p := Cancelled(old(state), env);
        state == p.state && delivered == old(delivered) + Log(p.signal, env)
    {
      hide PutDown;
      if !state.present {
        return;
      }
      var alive, rc := EnsureProcessDead(env);
      if rc.Some? {
        state := state.(arbitrationRc := rc);
      } else if state.arbitrationRc.None? {
        state := state.(arbitrationRc := Some(TERM_CODE));
      }
      state := state.(isProcessAlive := alive);
    }

    method Cleanup(env: Env)
      modifies this
      ensures var p := Cleaned(old(state), env);
        state == p.state && delivered == old(delivered) + Log(p.signal, env)
    {
      hide PutDown;
      if !state.present || !state.setup.named {
        return;
      }
      if state.setup.hasProcess && env.processAlive {
        var alive, rc := EnsureProcessDead(env);
        if rc.Some? {
          state := state.(arbitrationRc := rc);
        }
        state := state.(isProcessAlive := alive);
        if alive {
          return;
        }
      }
      state := state.(present := false);
    }
  }
}
