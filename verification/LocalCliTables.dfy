/** A session's grace periods, limits and codes in numbers, and what each reason of a verdict says. */
module LocalCliTables {
  import opened Options
  import opened LocalCli
  import opened LocalCliLaws

  // ----- when a process is still up after an attempt -----

  /** An attempt comes with a signal: nothing was sent yet, or only SIGTERM, at least five seconds ago. */
  predicate Signals(e: Escalation, env: Env) {
    e.requestedAt == None || (e.signal != Some(SigKill) && env.checked >= e.requestedAt.value * 1_000_000 + 5_000_000)
  }

  /** The signal was delivered, or refused by a process that is still there, not for the sixtieth time. */
  predicate Withstood(e: Escalation, env: Env) {
    env.kill == Delivered || (env.kill == Denied && env.recheckAlive && e.denied < 59)
  }

  /** A process counts as up after an attempt exactly if it is there and either withstood the signal, or was sent SIGTERM
      less than five seconds ago, or SIGKILL no more than two seconds ago. */
  lemma UpIff(s: State, env: Env)
    ensures PutDown(s, env).alive <==>
      && s.setup.hasProcess && env.groupAlive
      && if Signals(s.escalation, env) then Withstood(s.escalation, env)
         else s.escalation.signal == Some(SigKill) ==> env.checked <= s.escalation.requestedAt.value * 1_000_000 + 2_000_000
  {
  }

  /** An attempt delivers a signal exactly if the process is there and it is time for one; SIGTERM comes first. */
  lemma DeliveredIff(s: State, env: Env)
    ensures PutDown(s, env).signal ==
      if s.setup.hasProcess && env.groupAlive && Signals(s.escalation, env) && env.kill == Delivered then
        Some(if s.escalation.requestedAt == None then SigTerm else SigKill)
      else None
  {
  }

  /** Cleaning up removes a directory of agpair's own exactly when no process is alive, or the attempt leaves none. */
  lemma RemovedIff(s: State, env: Env)
    requires s.present
    ensures !Cleaned(s, env).state.present <==>
      s.setup.named && !(s.setup.hasProcess && env.processAlive && PutDown(s, env).alive)
    ensures Cleaned(s, env).signal != None ==> s.setup.named && s.setup.hasProcess && env.processAlive
  {
    hide PutDown;
  }

  // ----- the arbitration code -----

  /** It is SIGKILL's turn, or SIGKILL was sent. */
  predicate KillStage(e: Escalation, env: Env) {
    e.requestedAt != None && (e.signal == Some(SigKill) || env.checked >= e.requestedAt.value * 1_000_000 + 5_000_000)
  }

  /** The code an attempt gives: 137 at the stage of SIGKILL, unless the process turned out to be gone, else 143; none when
      a refused signal leaves the question open; the old one when the process is not there any more. */
  lemma AttemptCode(s: State, env: Env)
    ensures PutDown(s, env).rc ==
      if !s.setup.hasProcess then None
      else if !env.groupAlive then s.arbitrationRc
      else if Signals(s.escalation, env) && env.kill == Denied && Withstood(s.escalation, env) then None
      else if KillStage(s.escalation, env) && (s.escalation.signal == Some(SigKill) || env.kill != Gone) then Some(137)
      else Some(143)
  {
  }

  function Else(code: Option<int>, other: Option<int>): Option<int> {
    if code != None then code else other
  }

  /** Whose code stays: a cancel's over an older one, and one is always left; a cleanup's over an older one; an older one
      over a poll's. */
  lemma CodeKept(s: State, env: Env)
    requires s.present
    ensures Cancelled(s, env).state.arbitrationRc == Else(PutDown(s, env).rc, Else(s.arbitrationRc, Some(143)))
    ensures Cleaned(s, env).state.arbitrationRc ==
      if s.setup.named && s.setup.hasProcess && env.processAlive then Else(PutDown(s, env).rc, s.arbitrationRc)
      else s.arbitrationRc
    ensures s.arbitrationRc != None ==> Poll(s, env).state.arbitrationRc == s.arbitrationRc
    ensures s.arbitrationRc == None ==>
      Poll(s, env).state.arbitrationRc in [None, PutDown(Inspected(Observed(s, env), env), env).rc]
  {
    PollCode(s, env);
    hide PutDown;
    hide Poll;
  }

  lemma PollCode(s: State, env: Env)
    requires s.present
    ensures var code := Poll(s, env).state.arbitrationRc;
      if s.arbitrationRc != None then code == s.arbitrationRc
      else code == None || code == PutDown(Inspected(Observed(s, env), env), env).rc
  {
    SeenCode(s, env);
    hide PutDown;
    hide Arbitrate;
    hide Observed;
    hide Inspected;
  }

  lemma SeenCode(s: State, env: Env)
    ensures var seen := Inspected(Observed(s, env), env); seen.arbitrationRc == s.arbitrationRc && seen.setup == s.setup
  {
  }

  // ----- refused signals -----

  /** A cancel whose signal is refused by a process that is still there. */
  predicate Refused(step: Step) {
    step.CancelStep? && step.env.groupAlive && step.env.kill == Denied && step.env.recheckAlive
  }

  /** From the start, a process that refuses every signal counts as up until the sixtieth refusal, and then no more. */
  lemma {:induction false} SixtiethRefusal(setup: Setup, steps: seq<Step>)
    requires setup.hasProcess && forall k :: 0 <= k < |steps| ==> Refused(steps[k])
    ensures var s := Run(Fresh(setup), steps);
      && s.present && s.setup == setup && s.escalation == Escalation(None, None, |steps|)
      && (s.isProcessAlive <==> |steps| < 60)
    decreases |steps|
  {
    if steps != [] {
      hide Run;
      var n := |steps| - 1;
      SixtiethRefusal(setup, steps[..n]);
      RunLast(Fresh(setup), steps);
      assert Refused(steps[n]);
    } else {
      assert Run(Fresh(setup), []) == Fresh(setup);
    }
  }

  // ----- the exit code -----

  /** Step `k` is a poll, on a session that is there, that finds an exit code file. */
  predicate ExitSeen(setup: Setup, steps: seq<Step>, k: nat) {
    k < |steps| && steps[k].PollStep? && Run(Fresh(setup), steps[..k]).present && steps[k].env.rc != Absent
  }

  lemma StepSeesExit(s: State, step: Step)
    ensures var t := Apply(s, step).state;
      t.exitCode ==
        if s.exitCode == None && step.PollStep? && s.present && step.env.rc != Absent then
          Some(ExitOf(step.env.rc))
        else s.exitCode
  {
    hide PutDown;
    hide Arbitrate;
  }

  lemma ExitSeenEarlier(setup: Setup, steps: seq<Step>, n: nat, k: nat)
    requires k < n <= |steps|
    ensures ExitSeen(setup, steps, k) <==> ExitSeen(setup, steps[..n], k)
  {
    assert steps[..n][..k] == steps[..k];
  }

  /** Over every run from the start: the exit code is what the first poll that finds the file reads there, 1 if the file
      cannot be read, and later files change nothing. */
  lemma {:induction false} ExitIsFirst(setup: Setup, steps: seq<Step>)
    ensures Run(Fresh(setup), steps).exitCode == None <==> forall k: nat :: k < |steps| ==> !ExitSeen(setup, steps, k)
    ensures forall k: nat :: ExitSeen(setup, steps, k) && (forall j: nat :: j < k ==> !ExitSeen(setup, steps, j)) ==>
      k < |steps| && steps[k].env.rc != Absent && Run(Fresh(setup), steps).exitCode == Some(ExitOf(steps[k].env.rc))
    decreases |steps|
  {
    hide Run;
    hide ExitSeen;
    if steps == [] {
      NoExit(setup);
    } else {
      var n := |steps| - 1;
      ExitIsFirst(setup, steps[..n]);
      LastStepExits(setup, steps);
      forall k: nat | k < n ensures ExitSeen(setup, steps, k) <==> ExitSeen(setup, steps[..n], k) {
        ExitSeenEarlier(setup, steps, n, k);
      }
      forall k: nat | ExitSeen(setup, steps, k) && forall j: nat :: j < k ==> !ExitSeen(setup, steps, j)
        ensures k < |steps| && steps[k].env.rc != Absent && Run(Fresh(setup), steps).exitCode == Some(ExitOf(steps[k].env.rc))
      {
        SeenIsStep(setup, steps, k);
        if k < n {
          assert steps[..n][k] == steps[k];
        }
      }
    }
  }

  /** A file that cannot be read counts as code 1. */
  function ExitOf(rc: RcFile): int
    requires rc != Absent
  {
    if rc == Malformed then 1 else rc.code
  }

  lemma SeenIsStep(setup: Setup, steps: seq<Step>, k: nat)
    requires ExitSeen(setup, steps, k)
    ensures k < |steps| && steps[k].env.rc != Absent
  {
  }

  lemma NoExit(setup: Setup)
    ensures Run(Fresh(setup), []).exitCode == None && forall k: nat :: !ExitSeen(setup, [], k)
  {
  }

  lemma LastStepExits(setup: Setup, steps: seq<Step>)
    requires steps != []
    ensures var n := |steps| - 1;
      var before, code := Run(Fresh(setup), steps[..n]).exitCode, Run(Fresh(setup), steps).exitCode;
      && (before != None ==> code == before)
      && (before == None ==> (code != None <==> ExitSeen(setup, steps, n)))
      && (before == None && ExitSeen(setup, steps, n) ==> steps[n].env.rc != Absent && code == Some(ExitOf(steps[n].env.rc)))
  {
    hide Apply;
    hide Run;
    var n := |steps| - 1;
    RunLast(Fresh(setup), steps);
    StepSeesExit(Run(Fresh(setup), steps[..n]), steps[n]);
  }

  // ----- the reasons -----

  /** What each reason of a verdict means for the session and for what was found. */
  lemma ReasonMeans(s: State, env: Env)
    requires Arbitrate(s, env).Some?
    ensures var r, exited := Arbitrate(s, env).value, s.exitCode != None;
      match r.reason
      case StructuredLog => exited && env.structured != None && r.status == env.structured.value.status
      case CleanExit => s.exitCode == Some(0) && r.status == if s.hasCommitted then Committed else EvidencePack
      case ErrorExit => exited && s.exitCode != Some(0) && r.status == LocalCli.Blocked
      case ReportSalvaged => s.setup.salvage && env.hasReport && r.status == EvidencePack
      case ReportMissing => s.setup.readonly && !s.hasCommitted && r.status == LocalCli.Blocked
      case PostCommitHang =>
        !exited && s.hasCommitted && r.status == Committed
        && env.polled > s.commitDetectedAt.value * 1_000_000 + 30_000_000
      case DiedWithCommit => !exited && !s.isProcessAlive && s.hasCommitted && r.status == Committed
      case DiedWithoutReceipt =>
        !exited && !s.isProcessAlive && !s.hasCommitted && !s.setup.readonly && r.status == LocalCli.Blocked
      case WaitingForInput => !exited && s.isProcessAlive && env.waiting && r.status == LocalCli.Blocked
      case SessionLost => false
  {
  }
}
