/** What holds of a session over every run of polls, cancels and cleanups. */
module LocalCliLaws {
  import opened Options
  import opened Clock
  import opened LocalCli

  datatype Step = PollStep(env: Env) | CancelStep(env: Env) | CleanupStep(env: Env)

  function Apply(s: State, step: Step): Polled {
    match step
    case PollStep(env) => Poll(s, env)
    case CancelStep(env) => Cancelled(s, env)
    case CleanupStep(env) => Cleaned(s, env)
  }

  function Run(s: State, steps: seq<Step>): State
    decreases |steps|
  {
    if steps == [] then s else Run(Apply(s, steps[0]).state, steps[1..])
  }

  /** The signals delivered during the run. */
  function Signals(s: State, steps: seq<Step>): seq<(Signal, nat)>
    decreases |steps|
  {
    if steps == [] then []
    else Log(Apply(s, steps[0]).signal, steps[0].env) + Signals(Apply(s, steps[0]).state, steps[1..])
  }

  /** Within a step the clock does not run backwards. */
  predicate Ordered(env: Env) {
    env.polled <= env.checked <= env.sent <= env.stamped
  }

  predicate AllOrdered(steps: seq<Step>) {
    forall i :: 0 <= i < |steps| ==> Ordered(steps[i].env)
  }

  /** Every step acts on the escalation through one attempt to put the process down, or not at all. */
  lemma StepEscalates(s: State, step: Step)
    ensures var p := Apply(s, step);
      || (p.state.escalation == s.escalation && p.signal == None)
      || exists seen: State :: seen.escalation == s.escalation
           && p.state.escalation == PutDown(seen, step.env).escalation && p.signal == PutDown(seen, step.env).signal
  {
    hide PutDown;
    hide Arbitrate;
    match step
    case PollStep(env) =>
      hide Observed;
      hide Inspected;
      var seen := Inspected(Observed(s, env), env);
      ObservationKeeps(s, env);
    case CancelStep(env) =>
    case CleanupStep(env) =>
  }

  lemma ObservationKeeps(s: State, env: Env)
    ensures var seen := Inspected(Observed(s, env), env);
      && seen.escalation == s.escalation && seen.cached == s.cached && seen.present == s.present
      && seen.setup == s.setup && seen.arbitrationRc == s.arbitrationRc
      && seen.isProcessAlive == (s.setup.hasProcess && env.processAlive && seen.exitCode.None?)
  {
  }

  // ----- at most one signal of each kind, and patience between them -----

  /** The escalation matches the signals delivered so far. */
  predicate Accounted(e: Escalation, log: seq<(Signal, nat)>) {
    match (e.requestedAt, e.signal)
    case (None, None) => log == []
    case (Some(at), Some(SigTerm)) => |log| == 1 && log[0].0 == SigTerm && log[0].1 < (at + 1) * SECOND
    case (Some(at), Some(SigKill)) =>
      |log| == 2 && log[0].0 == SigTerm && log[1].0 == SigKill && log[1].1 > log[0].1 + (TERM_GRACE - 1) * SECOND
    case _ => false
  }

  lemma StampIsClose(time: nat)
    ensures Stamp(time) * SECOND <= time < (Stamp(time) + 1) * SECOND
  {
  }

  lemma AttemptAccounted(s: State, env: Env, log: seq<(Signal, nat)>)
    requires Accounted(s.escalation, log) && Ordered(env)
    ensures Accounted(PutDown(s, env).escalation, log + Log(PutDown(s, env).signal, env))
  {
    hide Stamp;
    var a := PutDown(s, env);
    StampIsClose(env.stamped);
    if a.signal.None? {
      assert log + Log(a.signal, env) == log;
    }
  }

  lemma {:induction false} RunAccounted(s: State, steps: seq<Step>, log: seq<(Signal, nat)>)
    requires Accounted(s.escalation, log) && AllOrdered(steps)
    ensures Accounted(Run(s, steps).escalation, log + Signals(s, steps))
    decreases |steps|
  {
    hide Accounted;
    hide PutDown;
    hide Apply;
    if steps == [] {
      assert log + Signals(s, steps) == log;
    } else {
      var step := steps[0];
      var p := Apply(s, step);
      var added := Log(p.signal, step.env);
      StepEscalates(s, step);
      if p.state.escalation == s.escalation && p.signal == None {
        assert log + added == log;
      } else {
        var seen: State :| seen.escalation == s.escalation && p.state.escalation == PutDown(seen, step.env).escalation
          && p.signal == PutDown(seen, step.env).signal;
        AttemptAccounted(seen, step.env, log);
      }
      RunAccounted(p.state, steps[1..], log + added);
      assert log + Signals(s, steps) == (log + added) + Signals(p.state, steps[1..]);
    }
  }

  /** In any run from the start, at most one SIGTERM and one SIGKILL are delivered, in that order and more than
      four seconds apart. */
  lemma SignalsAreFew(setup: Setup, steps: seq<Step>)
    requires AllOrdered(steps)
    ensures var log := Signals(Fresh(setup), steps);
      && |log| <= 2
      && (|log| >= 1 ==> log[0].0 == SigTerm)
      && (|log| == 2 ==> log[1].0 == SigKill && log[1].1 > log[0].1 + 4 * SECOND)
  {
    hide Signals;
    RunAccounted(Fresh(setup), steps, []);
    assert [] + Signals(Fresh(setup), steps) == Signals(Fresh(setup), steps);
  }

  lemma AttemptGivesUp(s: State, env: Env, log: seq<(Signal, nat)>)
    requires Accounted(s.escalation, log) && SigKillStamped(s.escalation, log) && !PutDown(s, env).alive
    ensures || !s.setup.hasProcess || !env.groupAlive || env.kill == Gone || (env.kill == Denied && !env.recheckAlive)
            || (env.kill == Denied && s.escalation.denied + 1 >= DENIED_LIMIT)
            || (|log| == 2 && env.checked > log[1].1 + (KILL_GRACE - 1) * SECOND)
  {
  }

  /** The stamp of a SIGKILL is less than a second older than its delivery. */
  predicate SigKillStamped(e: Escalation, log: seq<(Signal, nat)>) {
    |log| == 2 ==> e.requestedAt.Some? && log[1].1 < (e.requestedAt.value + 1) * SECOND
  }

  lemma AttemptStamped(s: State, env: Env, log: seq<(Signal, nat)>)
    requires Accounted(s.escalation, log) && SigKillStamped(s.escalation, log) && Ordered(env)
    ensures SigKillStamped(PutDown(s, env).escalation, log + Log(PutDown(s, env).signal, env))
  {
    hide Stamp;
    var a := PutDown(s, env);
    StampIsClose(env.stamped);
    if a.signal.None? {
      assert log + Log(a.signal, env) == log;
    }
  }

  lemma {:induction false} RunStamped(s: State, steps: seq<Step>, log: seq<(Signal, nat)>)
    requires Accounted(s.escalation, log) && SigKillStamped(s.escalation, log) && AllOrdered(steps)
    ensures SigKillStamped(Run(s, steps).escalation, log + Signals(s, steps))
    decreases |steps|
  {
    hide Accounted;
    hide SigKillStamped;
    hide PutDown;
    hide Apply;
    if steps == [] {
      assert log + Signals(s, steps) == log;
    } else {
      var step := steps[0];
      var p := Apply(s, step);
      var added := Log(p.signal, step.env);
      StepEscalates(s, step);
      if p.state.escalation == s.escalation && p.signal == None {
        assert log + added == log;
      } else {
        var seen: State :| seen.escalation == s.escalation && p.state.escalation == PutDown(seen, step.env).escalation
          && p.signal == PutDown(seen, step.env).signal;
        AttemptAccounted(seen, step.env, log);
        AttemptStamped(seen, step.env, log);
      }
      RunStamped(p.state, steps[1..], log + added);
      assert log + Signals(s, steps) == (log + added) + Signals(p.state, steps[1..]);
    }
  }

  lemma {:induction false} SetupStays(s: State, steps: seq<Step>)
    ensures Run(s, steps).setup == s.setup
    decreases |steps|
  {
    if steps != [] {
      StepKeepsSetup(s, steps[0]);
      SetupStays(Apply(s, steps[0]).state, steps[1..]);
    }
  }

  lemma StepKeepsSetup(s: State, step: Step)
    ensures Apply(s, step).state.setup == s.setup
  {
    hide PutDown;
    hide Arbitrate;
  }

  /** A process that is still there, still ours and open to signals is given up only after both signals were
      delivered, and more than a second after the second. */
  lemma GivenUpAfterKill(setup: Setup, steps: seq<Step>, env: Env)
    requires AllOrdered(steps) && !PutDown(Run(Fresh(setup), steps), env).alive
    requires setup.hasProcess && env.groupAlive && env.kill == Delivered
    ensures var log := Signals(Fresh(setup), steps);
      |log| == 2 && log[0].0 == SigTerm && log[1].0 == SigKill && env.checked > log[1].1 + SECOND
  {
    hide Signals;
    hide Run;
    hide PutDown;
    SetupStays(Fresh(setup), steps);
    RunAccounted(Fresh(setup), steps, []);
    RunStamped(Fresh(setup), steps, []);
    assert [] + Signals(Fresh(setup), steps) == Signals(Fresh(setup), steps);
    AttemptGivesUp(Run(Fresh(setup), steps), env, Signals(Fresh(setup), steps));
  }

  // ----- the process is given up after a number of steps known in advance -----

  function RefusalsLeft(denied: nat): nat {
    if denied < DENIED_LIMIT - 1 then DENIED_LIMIT - 1 - denied else 0
  }

  function KillWaits(d: nat): nat
    requires d > 0
  {
    Waits(KILL_GRACE * SECOND + 1, d)
  }

  /** Attempts that can still leave the process up, when the next one reads the clock at `now` or later. */
  function AttemptsLeft(e: Escalation, now: int, d: nat): nat
    requires d > 0
  {
    if e.requestedAt.None? then
      RefusalsLeft(e.denied) + 1 + Waits(TERM_GRACE * SECOND, d) + 1 + KillWaits(d)
    else if e.signal == Some(SigKill) then
      Waits(e.requestedAt.value * SECOND + KILL_GRACE * SECOND + 1 - now, d)
    else
      RefusalsLeft(e.denied) + Waits(e.requestedAt.value * SECOND + TERM_GRACE * SECOND - now, d) + 1 + KillWaits(d)
  }

  /** With a second between attempts at least, no process survives more than sixty-nine. */
  lemma OnceASecond()
    ensures MostAttempts(SECOND) == 69
  {
    WaitsRoundsUp(TERM_GRACE * SECOND, SECOND);
    WaitsRoundsUp(KILL_GRACE * SECOND + 1, SECOND);
  }

  /** The most attempts any process can survive when the clock moves by at least `d` between them. */
  function MostAttempts(d: nat): nat
    requires d > 0
  {
    DENIED_LIMIT + 1 + Waits(TERM_GRACE * SECOND, d) + KillWaits(d)
  }

  lemma AttemptCosts(s: State, env: Env, now: int, next: int, d: nat)
    requires d > 0 && Ordered(env) && now <= env.checked
    requires next >= env.stamped && next >= env.checked + d
    requires PutDown(s, env).alive
    ensures AttemptsLeft(PutDown(s, env).escalation, next, d) < AttemptsLeft(s.escalation, now, d)
  {
    hide Waits;
    hide KillWaits;
    hide Stamp;
    var e := s.escalation;
    var a := PutDown(s, env);
    var at := Stamp(env.stamped) * SECOND;
    StampIsClose(env.stamped);
    if e.requestedAt.None? {
      WaitsGrow(at + TERM_GRACE * SECOND - next, TERM_GRACE * SECOND, d);
    } else {
      var stamp := e.requestedAt.value * SECOND;
      if e.signal == Some(SigKill) {
        var deadline := stamp + KILL_GRACE * SECOND + 1;
        WaitsStep(deadline - now, deadline - env.checked, d);
        WaitsGrow(deadline - next, deadline - env.checked - d, d);
      } else {
        var deadline := stamp + TERM_GRACE * SECOND;
        WaitsGrow(deadline - next, deadline - now, d);
        if env.checked < deadline {
          WaitsStep(deadline - now, deadline - env.checked, d);
          WaitsGrow(deadline - next, deadline - env.checked - d, d);
        } else {
          KillWaitsIs(d);
          WaitsGrow(at + KILL_GRACE * SECOND + 1 - next, KILL_GRACE * SECOND + 1, d);
        }
      }
    }
  }

  lemma KillWaitsIs(d: nat)
    requires d > 0
    ensures KillWaits(d) == Waits(KILL_GRACE * SECOND + 1, d)
  {
  }

  /** The clock moves by at least `d` from each step to the next, starting at `now`. */
  predicate Ticking(steps: seq<Step>, now: int, d: nat) {
    steps == [] ||
    (Ordered(steps[0].env) && now <= steps[0].env.polled
     && Ticking(steps[1..], Next(steps[0].env, d), d))
  }

  function Next(env: Env, d: nat): int {
    if env.stamped > env.checked + d then env.stamped else env.checked + d
  }

  /** The step tried to put the process down and the process counts as alive after it: a poll tries once there is a
      verdict, a cleanup tries in a directory of agpair's own, and a cancel always tries. */
  predicate SurvivedAttempt(s: State, step: Step) {
    var after := Apply(s, step).state;
    && s.present && after.present && after.isProcessAlive
    && match step
       case PollStep(_) => after.cached.Some?
       case CancelStep(_) => true
       case CleanupStep(_) => s.setup.named
  }

  /** Number of attempts in the run that the process survived. */
  function Survived(s: State, steps: seq<Step>): nat
    decreases |steps|
  {
    if steps == [] then 0
    else (if SurvivedAttempt(s, steps[0]) then 1 else 0) + Survived(Apply(s, steps[0]).state, steps[1..])
  }

  lemma SurvivedIsAttempt(s: State, step: Step)
    requires SurvivedAttempt(s, step)
    ensures exists seen: State :: seen.escalation == s.escalation && PutDown(seen, step.env).alive
              && Apply(s, step).state.escalation == PutDown(seen, step.env).escalation
  {
    hide PutDown;
    match step
    case PollStep(env) =>
      hide Observed;
      hide Inspected;
      ObservationKeeps(s, env);
      var seen := Inspected(Observed(s, env), env);
    case CancelStep(env) =>
      assert PutDown(s, env).alive;
    case CleanupStep(env) =>
      assert PutDown(s, env).alive;
  }

  /** An attempt that ends with the process gone, or given up, changes at most the count of refusals. */
  lemma LastAttempt(s: State, env: Env)
    requires !PutDown(s, env).alive
    ensures var after := PutDown(s, env).escalation;
      after == s.escalation.(denied := after.denied) && after.denied >= s.escalation.denied
  {
  }

  /** Time alone, and further refusals, only bring the measure down. */
  lemma LessLeft(e: Escalation, denied: nat, now: int, next: int, d: nat)
    requires d > 0 && now <= next && denied >= e.denied
    ensures AttemptsLeft(e.(denied := denied), next, d) <= AttemptsLeft(e, now, d)
  {
    hide Waits;
    hide KillWaits;
    if e.requestedAt.Some? {
      var stamp := e.requestedAt.value * SECOND;
      WaitsGrow(stamp + KILL_GRACE * SECOND + 1 - next, stamp + KILL_GRACE * SECOND + 1 - now, d);
      WaitsGrow(stamp + TERM_GRACE * SECOND - next, stamp + TERM_GRACE * SECOND - now, d);
    }
  }

  /** Whatever the step, the measure never rises, and a survived attempt brings it down. */
  lemma StepCosts(s: State, step: Step, now: int, d: nat)
    requires d > 0 && Ordered(step.env) && now <= step.env.polled
    ensures AttemptsLeft(Apply(s, step).state.escalation, Next(step.env, d), d) + (if SurvivedAttempt(s, step) then 1 else 0)
      <= AttemptsLeft(s.escalation, now, d)
  {
    hide AttemptsLeft;
    hide PutDown;
    hide Apply;
    hide SurvivedAttempt;
    var after, next := Apply(s, step).state.escalation, Next(step.env, d);
    if SurvivedAttempt(s, step) {
      SurvivedIsAttempt(s, step);
      var seen: State :| seen.escalation == s.escalation && PutDown(seen, step.env).alive
        && after == PutDown(seen, step.env).escalation;
      AttemptCosts(seen, step.env, now, next, d);
    } else {
      StepEscalates(s, step);
      if after == s.escalation {
        LessLeft(s.escalation, s.escalation.denied, now, next, d);
      } else {
        var seen: State :| seen.escalation == s.escalation && after == PutDown(seen, step.env).escalation;
        if PutDown(seen, step.env).alive {
          AttemptCosts(seen, step.env, now, next, d);
        } else {
          LastAttempt(seen, step.env);
          LessLeft(s.escalation, after.denied, now, next, d);
        }
      }
    }
  }

  lemma {:induction false} SurvivedIsBounded(s: State, steps: seq<Step>, now: int, d: nat)
    requires d > 0 && Ticking(steps, now, d)
    ensures Survived(s, steps) <= AttemptsLeft(s.escalation, now, d)
    decreases |steps|
  {
    hide AttemptsLeft;
    hide SurvivedAttempt;
    hide Apply;
    if steps != [] {
      StepCosts(s, steps[0], now, d);
      SurvivedIsBounded(Apply(s, steps[0]).state, steps[1..], Next(steps[0].env, d), d);
    }
  }

  /** In any run of polls, cancels and cleanups, from any state, judged or not, the attempts to put the process down
      that it survives are no more than a number that depends on the clock's pace only, whatever the process does and
      however often signals are refused. */
  lemma BoundedKill(s: State, steps: seq<Step>, now: int, d: nat)
    requires d > 0 && Ticking(steps, now, d)
    requires s.escalation.requestedAt.Some? ==> s.escalation.requestedAt.value * SECOND <= now
    ensures Survived(s, steps) <= MostAttempts(d)
  {
    hide *;
    MostCovers(s.escalation, now, d);
    SurvivedIsBounded(s, steps, now, d);
  }

  /** After every step of the run the session is still there and its process counts as alive. */
  predicate Survives(s: State, steps: seq<Step>)
    decreases |steps|
  {
    steps == [] ||
    (var p := Apply(s, steps[0]);
     p.state.present && p.state.isProcessAlive && Survives(p.state, steps[1..]))
  }

  /** Every step tries: nothing but cancels, or, on a judged session, anything but the cleanup of a foreign directory. */
  predicate AllTry(s: State, steps: seq<Step>) {
    forall i :: 0 <= i < |steps| ==>
      match steps[i]
      case PollStep(_) => s.cached.Some?
      case CancelStep(_) => true
      case CleanupStep(_) => s.setup.named
  }

  /** Polling leaves a verdict in place until the process is down; nothing else touches it. */
  lemma VerdictWaits(s: State, step: Step)
    requires s.present && Apply(s, step).state.present && Apply(s, step).state.isProcessAlive
    ensures s.cached.Some? ==> Apply(s, step).state.cached == s.cached
  {
    hide PutDown;
    if step.PollStep? {
      hide Observed;
      hide Inspected;
      ObservationKeeps(s, step.env);
    }
  }

  lemma {:induction false} AllSurvived(s: State, steps: seq<Step>)
    requires s.present && AllTry(s, steps) && Survives(s, steps)
    ensures Survived(s, steps) == |steps|
    decreases |steps|
  {
    hide Apply;
    if steps != [] {
      VerdictWaits(s, steps[0]);
      StepKeepsSetup(s, steps[0]);
      AllSurvived(Apply(s, steps[0]).state, steps[1..]);
    }
  }

  /** So a session that is cancelled again and again, judged or not, or a judged one under any mixture of steps, is
      marked dead or removed before the number is exceeded. */
  lemma PursuedIsDown(s: State, steps: seq<Step>, now: int, d: nat)
    requires d > 0 && s.present && AllTry(s, steps) && Ticking(steps, now, d)
    requires s.escalation.requestedAt.Some? ==> s.escalation.requestedAt.value * SECOND <= now
    requires |steps| > MostAttempts(d)
    ensures !Survives(s, steps)
  {
    hide *;
    BoundedKill(s, steps, now, d);
    if Survives(s, steps) {
      AllSurvived(s, steps);
    }
  }

  lemma MostCovers(e: Escalation, now: int, d: nat)
    requires d > 0 && (e.requestedAt.Some? ==> e.requestedAt.value * SECOND <= now)
    ensures AttemptsLeft(e, now, d) <= MostAttempts(d)
  {
    hide Waits;
    KillWaitsIs(d);
    if e.requestedAt.Some? {
      WaitsGrow(e.requestedAt.value * SECOND + KILL_GRACE * SECOND + 1 - now, KILL_GRACE * SECOND + 1, d);
      WaitsGrow(e.requestedAt.value * SECOND + TERM_GRACE * SECOND - now, TERM_GRACE * SECOND, d);
    }
  }

  /** No more than sixty refused signals are counted before the process is given up. */
  lemma RefusalsAreCounted(s: State, env: Env)
    ensures var a := PutDown(s, env);
      a.escalation.denied <= s.escalation.denied + 1
      && (a.alive && a.escalation.denied > s.escalation.denied ==> a.escalation.denied < DENIED_LIMIT)
  {
  }

  // ----- the verdict -----

  /** The first completed poll of a run: its receipt, and whether the session directory was there. */
  function FirstDone(s: State, steps: seq<Step>): Option<(Receipt, bool)>
    decreases |steps|
  {
    if steps == [] then None
    else
      var p := Apply(s, steps[0]);
      if p.report.Done? then Some((p.report.receipt, s.present)) else FirstDone(p.state, steps[1..])
  }

  lemma JudgedStep(s: State, step: Step)
    requires s.cached.Some? || !s.present
    ensures var p := Apply(s, step);
      && (p.report.Done? ==> p.report.receipt == if s.present then s.cached.value else LOST)
      && (p.report == Running ==> !p.state.present || (p.state.present && s.present && p.state.cached == s.cached))
  {
    hide PutDown;
    if step.PollStep? {
      hide Observed;
      hide Inspected;
      ObservationKeeps(s, step.env);
    }
  }

  /** Once judged, a session's next completed poll reports that very receipt, whatever exit code, commit or log
      turns up meanwhile; only removing the directory first loses it. */
  lemma {:induction false} VerdictIsFinal(s: State, steps: seq<Step>)
    requires s.cached.Some? || !s.present
    ensures match FirstDone(s, steps)
      case None => true
      case Some((receipt, present)) =>
        (present ==> s.present && receipt == s.cached.value) && (!present ==> receipt == LOST)
    decreases |steps|
  {
    hide Apply;
    if steps != [] {
      JudgedStep(s, steps[0]);
      var p := Apply(s, steps[0]);
      if p.report == Running {
        VerdictIsFinal(p.state, steps[1..]);
      }
    }
  }

  /** The poll that judges either reports its verdict at once or stores it. */
  lemma JudgingStores(s: State, env: Env, receipt: Receipt)
    requires s.present && s.cached.None? && Arbitrate(Inspected(Observed(s, env), env), env) == Some(receipt)
    ensures var p := Poll(s, env);
      p.report == Done(receipt) || (p.report == Running && p.state.present && p.state.cached == Some(receipt))
  {
    hide PutDown;
    hide Arbitrate;
    hide Observed;
    hide Inspected;
    ObservationKeeps(s, env);
  }

  /** From the first verdict on: the first completed poll reports the receipt of the poll that judged, in every run. */
  lemma FirstVerdictStands(s: State, env: Env, receipt: Receipt, steps: seq<Step>)
    requires s.present && s.cached.None? && Arbitrate(Inspected(Observed(s, env), env), env) == Some(receipt)
    ensures match FirstDone(s, [PollStep(env)] + steps)
      case None => true
      case Some((reported, present)) => reported == if present then receipt else LOST
  {
    hide Poll;
    hide Arbitrate;
    hide Observed;
    hide Inspected;
    var all := [PollStep(env)] + steps;
    assert all[0] == PollStep(env) && all[1..] == steps;
    JudgingStores(s, env, receipt);
    if Poll(s, env).report == Running {
      VerdictIsFinal(Poll(s, env).state, steps);
    }
  }

  /** A judged session's poll completes exactly when the exit code is known, there is no live process, or the
      attempt to put it down succeeds or is given up; the process then counts as dead. */
  lemma CompletionMeansDown(s: State, env: Env)
    requires s.present && s.cached.Some?
    ensures var seen := Inspected(Observed(s, env), env);
      Poll(s, env).report.Done? <==>
        seen.exitCode.Some? || !s.setup.hasProcess || !env.processAlive || !PutDown(seen, env).alive
    ensures Poll(s, env).report.Done? <==> !Poll(s, env).state.isProcessAlive
  {
    hide PutDown;
    hide Observed;
    hide Inspected;
    ObservationKeeps(s, env);
  }

  /** Whatever the session, a completed poll leaves no verdict waiting and no process counted as alive. */
  lemma DoneLeavesNothing(s: State, env: Env)
    requires s.present && Poll(s, env).report.Done?
    ensures !Poll(s, env).state.isProcessAlive && Poll(s, env).state.cached == None
  {
    hide PutDown;
    hide Observed;
    hide Inspected;
    hide Arbitrate;
  }

  /** An unjudged session goes on, unjudged, over a poll exactly if its executor lives, has left no exit code, does not
      wait for input, and has not outstayed a commit that an earlier poll noted; a commit noted by this very poll is
      never too old. */
  lemma StaysUnjudgedIff(s: State, env: Env)
    requires s.present && s.cached.None? && Sound(s)
    ensures var p := Poll(s, env);
      (p.report == Running && p.state.cached.None?) <==>
        && s.exitCode.None? && env.rc.Absent? && s.setup.hasProcess && env.processAlive && !env.waiting
        && (s.hasCommitted ==> env.polled <= s.commitDetectedAt.value * 1_000_000 + 30_000_000)
  {
    hide PutDown;
    var seen := Inspected(Observed(s, env), env);
    UndecidedIff(seen, env);
    UnjudgedPoll(s, env);
    CommitJustNoted(s, env);
    hide Arbitrate;
    hide Poll;
  }

  lemma UnjudgedPoll(s: State, env: Env)
    requires s.present && s.cached.None?
    ensures var p := Poll(s, env);
      (p.report == Running && p.state.cached.None?) <==> Arbitrate(Inspected(Observed(s, env), env), env) == None
  {
    hide PutDown;
    hide Arbitrate;
    hide Observed;
    hide Inspected;
    ObservationKeeps(s, env);
  }

  lemma CommitJustNoted(s: State, env: Env)
    ensures var seen := Inspected(Observed(s, env), env);
      && (s.hasCommitted ==> seen.hasCommitted && seen.commitDetectedAt == s.commitDetectedAt)
      && (!s.hasCommitted && seen.hasCommitted && s.commitDetectedAt.None? ==>
            seen.commitDetectedAt.Some? && Since(env.polled, seen.commitDetectedAt.value) < SECOND)
  {
  }

  /** There is no verdict exactly while the executor lives, has not exited, does not wait for input, and has not
      outstayed a commit. */
  lemma UndecidedIff(s: State, env: Env)
    ensures Arbitrate(s, env) == None <==>
      && s.exitCode.None? && s.isProcessAlive && !env.waiting
      && !(s.hasCommitted && s.commitDetectedAt.Some?
           && env.polled > s.commitDetectedAt.value * 1_000_000 + 30_000_000)
  {
  }

  /** Without a structured log: a verdict of success needs a commit, a clean exit, or a report that may count; an
      error exit is never called committed. */
  lemma SuccessNeedsGrounds(s: State, env: Env)
    requires env.structured == None && Arbitrate(s, env).Some?
    ensures var r := Arbitrate(s, env).value;
      var exitedWell := s.exitCode.None? || s.exitCode == Some(0);
      var mayReport := (s.setup.salvage && env.hasReport) || (s.exitCode == Some(0) && !s.setup.readonly);
      && (r.status == Committed <==> r.reason != WaitingForInput && s.hasCommitted && exitedWell)
      && (r.status == EvidencePack <==> r.reason != WaitingForInput && r.status != Committed && mayReport)
  {
  }

  // ----- commits -----

  /** A commit has its date, and a verdict of "committed" that no structured log gave rests on a commit. */
  predicate Sound(s: State) {
    && (s.hasCommitted <==> s.commitDetectedAt.Some?)
    && (s.cached.Some? ==> Grounded(s, s.cached.value))
  }

  /** What stands behind a receipt of success that no structured log gave. */
  predicate Grounded(s: State, r: Receipt) {
    r.reason != StructuredLog ==>
      && (r.status == Committed ==> s.hasCommitted)
      && (r.status == EvidencePack ==> s.setup.salvage || (s.exitCode == Some(0) && !s.setup.readonly))
  }

  lemma VerdictIsGrounded(s: State, env: Env)
    requires Arbitrate(s, env).Some?
    ensures Grounded(s, Arbitrate(s, env).value)
  {
    hide Arbitrate;
    if env.structured == None {
      SuccessNeedsGrounds(s, env);
    } else {
      StructuredVerdict(s, env);
      if Arbitrate(s, env).value.reason != StructuredLog {
        SuccessNeedsGrounds(s, env.(structured := None));
      }
    }
  }

  /** A structured log changes the verdict only of an executor that left an exit code. */
  lemma StructuredVerdict(s: State, env: Env)
    requires Arbitrate(s, env).Some?
    ensures Arbitrate(s, env).value.reason == StructuredLog || Arbitrate(s, env) == Arbitrate(s, env.(structured := None))
  {
  }

  /** What no step takes back. */
  predicate Keeps(s: State, t: State) {
    && (s.hasCommitted ==> t.hasCommitted)
    && (s.commitDetectedAt.Some? ==> t.commitDetectedAt == s.commitDetectedAt)
    && (s.exitCode.Some? ==> t.exitCode == s.exitCode)
    && (!s.present ==> !t.present)
    && s.escalation.denied <= t.escalation.denied
  }

  lemma ObservationSound(s: State, env: Env)
    requires Sound(s)
    ensures var seen := Inspected(Observed(s, env), env);
      Sound(seen) && Keeps(s, seen)
  {
  }

  lemma StepKeeps(s: State, step: Step)
    requires Sound(s)
    ensures var p := Apply(s, step);
      && Sound(p.state) && Keeps(s, p.state)
      && (p.report.Done? ==> Grounded(p.state, p.report.receipt))
  {
    hide Sound;
    match step
    case PollStep(env) =>
      if s.present {
        PollKeeps(s, env);
      } else {
        SoundParts(s, s);
      }
    case CancelStep(env) =>
      RefusalsAreCounted(s, env);
      DeniedGrows(s, env);
      SoundParts(s, Cancelled(s, env).state);
    case CleanupStep(env) =>
      DeniedGrows(s, env);
      SoundParts(s, Cleaned(s, env).state);
  }

  lemma DeniedGrows(s: State, env: Env)
    ensures PutDown(s, env).escalation.denied >= s.escalation.denied
  {
  }

  lemma SoundParts(s: State, t: State)
    requires Sound(s) && t.hasCommitted == s.hasCommitted && t.commitDetectedAt == s.commitDetectedAt && t.cached == s.cached
    requires t.setup == s.setup && t.exitCode == s.exitCode
    ensures Sound(t)
  {
  }

  lemma PollKeeps(s: State, env: Env)
    requires Sound(s) && s.present
    ensures var p := Poll(s, env);
      && Sound(p.state) && Keeps(s, p.state)
      && (p.report.Done? ==> Grounded(p.state, p.report.receipt))
  {
    hide Observed;
    hide Inspected;
    hide Arbitrate;
    hide PutDown;
    var seen := Inspected(Observed(s, env), env);
    ObservationSound(s, env);
    ObservationKeeps(s, env);
    DeniedGrows(seen, env);
    if seen.cached.None? && Arbitrate(seen, env).Some? {
      VerdictIsGrounded(seen, env);
    }
  }

  /** A detected commit, its date, and a known exit code are never taken back, in any run. */
  lemma {:induction false} RunKeeps(s: State, steps: seq<Step>)
    requires Sound(s)
    ensures Sound(Run(s, steps)) && Keeps(s, Run(s, steps))
    decreases |steps|
  {
    hide Apply;
    hide Sound;
    if steps != [] {
      StepKeeps(s, steps[0]);
      RunKeeps(Apply(s, steps[0]).state, steps[1..]);
    }
  }

  /** From the start of a session on, an evidence pack that no structured log gave comes from a session that may
      salvage reports, or from one that may write and exited with code 0. */
  lemma EvidenceMeansWork(setup: Setup, steps: seq<Step>, env: Env)
    requires Poll(Run(Fresh(setup), steps), env).report.Done?
    ensures var p := Poll(Run(Fresh(setup), steps), env);
      p.report.receipt.status == EvidencePack && p.report.receipt.reason != StructuredLog ==>
        setup.salvage || (p.state.exitCode == Some(0) && !setup.readonly)
  {
    hide Poll;
    RunKeeps(Fresh(setup), steps);
    SetupStays(Fresh(setup), steps);
    StepKeepsSetup(Run(Fresh(setup), steps), PollStep(env));
    StepKeeps(Run(Fresh(setup), steps), PollStep(env));
  }

  /** What a detected commit is: the repository's head has moved from where it was at the start, the work differs from the
      start unless there was none, and a commit names the task. */
  predicate ShowsCommit(setup: Setup, env: Env) {
    && setup.inRepo && env.head != None && env.head != setup.startHead
    && (setup.startHead == None || env.hasDiff) && env.ownsCommit
  }

  /** Step `k` of the run is a poll, on a session that is there, that finds a commit. */
  predicate CommitSeen(setup: Setup, steps: seq<Step>, k: nat) {
    k < |steps| && steps[k].PollStep? && Run(Fresh(setup), steps[..k]).present && ShowsCommit(setup, steps[k].env)
  }

  lemma {:induction false} RunLast(s: State, steps: seq<Step>)
    requires steps != []
    ensures Run(s, steps) == Apply(Run(s, steps[..|steps| - 1]), steps[|steps| - 1]).state
    decreases |steps|
  {
    hide Apply;
    var n := |steps| - 1;
    if n > 0 {
      RunLast(Apply(s, steps[0]).state, steps[1..]);
      assert steps[1..][..n - 1] == steps[..n][1..];
    } else {
      assert steps[1..] == [] && steps[..0] == [];
    }
  }

  lemma StepSeesCommit(s: State, step: Step)
    requires Sound(s)
    ensures var t := Apply(s, step).state;
      var seen := step.PollStep? && s.present && ShowsCommit(s.setup, step.env);
      && (t.hasCommitted <==> s.hasCommitted || seen)
      && (s.hasCommitted || !seen ==> t.commitDetectedAt == s.commitDetectedAt)
      && (!s.hasCommitted && seen ==> t.commitDetectedAt == Some(step.env.polled / 1_000_000))
  {
    hide PutDown;
    hide Arbitrate;
    if step.PollStep? && s.present {
      PollSeesCommit(s, step.env);
    }
  }

  lemma PollSeesCommit(s: State, env: Env)
    requires s.present
    ensures var t, seen := Poll(s, env).state, Inspected(Observed(s, env), env);
      t.hasCommitted == seen.hasCommitted && t.commitDetectedAt == seen.commitDetectedAt
  {
    hide PutDown;
    hide Arbitrate;
    hide Observed;
    hide Inspected;
  }

  /** A step's finding does not depend on the steps after it. */
  lemma SeenEarlier(setup: Setup, steps: seq<Step>, n: nat, k: nat)
    requires k < n <= |steps|
    ensures CommitSeen(setup, steps, k) <==> CommitSeen(setup, steps[..n], k)
  {
    assert steps[..n][..k] == steps[..k];
  }

  /** What the last step adds. */
  lemma LastStepSees(setup: Setup, steps: seq<Step>)
    requires steps != []
    ensures var n := |steps| - 1;
      var before, s := Run(Fresh(setup), steps[..n]), Run(Fresh(setup), steps);
      && (s.hasCommitted <==> before.hasCommitted || CommitSeen(setup, steps, n))
      && (before.hasCommitted ==> s.commitDetectedAt == before.commitDetectedAt)
      && (!before.hasCommitted && CommitSeen(setup, steps, n) ==>
            s.commitDetectedAt == Some(steps[n].env.polled / 1_000_000))
  {
    hide Apply;
    hide ShowsCommit;
    hide Run;
    var n := |steps| - 1;
    RunLast(Fresh(setup), steps);
    RunKeeps(Fresh(setup), steps[..n]);
    SetupStays(Fresh(setup), steps[..n]);
    StepSeesCommit(Run(Fresh(setup), steps[..n]), steps[n]);
  }

  /** Over every run from the start: the session counts as committed exactly if some poll found a commit. */
  lemma {:induction false} CommittedIff(setup: Setup, steps: seq<Step>)
    ensures Run(Fresh(setup), steps).hasCommitted <==> exists k :: CommitSeen(setup, steps, k)
    decreases |steps|
  {
    hide Run;
    if steps == [] {
      NoSteps(setup);
    } else {
      var n := |steps| - 1;
      CommittedIff(setup, steps[..n]);
      LastStepSees(setup, steps);
      if k: nat :| CommitSeen(setup, steps[..n], k) {
        SeenEarlier(setup, steps, n, k);
      }
      if k: nat :| CommitSeen(setup, steps, k) && k != n {
        SeenEarlier(setup, steps, n, k);
      }
    }
  }

  lemma NoSteps(setup: Setup)
    ensures !Run(Fresh(setup), []).hasCommitted
  {
  }

  /** And it carries the second in which the first such poll was made. */
  lemma {:induction false} CommitIsDated(setup: Setup, steps: seq<Step>, k: nat)
    requires CommitSeen(setup, steps, k) && forall j :: 0 <= j < k ==> !CommitSeen(setup, steps, j)
    ensures Run(Fresh(setup), steps).commitDetectedAt == Some(steps[k].env.polled / 1_000_000)
    decreases |steps|
  {
    hide Run;
    var n := |steps| - 1;
    LastStepSees(setup, steps);
    CommittedIff(setup, steps[..n]);
    forall j: nat | j < n ensures CommitSeen(setup, steps[..n], j) <==> CommitSeen(setup, steps, j) {
      SeenEarlier(setup, steps, n, j);
    }
    if k < n {
      CommitIsDated(setup, steps[..n], k);
    }
  }

  /** From the start of a session on, a receipt that says "committed" without a structured log to say so means that a
      poll, this one at the latest, found a commit. */
  lemma CommittedMeansCommit(setup: Setup, steps: seq<Step>, env: Env)
    requires Poll(Run(Fresh(setup), steps), env).report.Done?
    ensures var p, all := Poll(Run(Fresh(setup), steps), env), steps + [PollStep(env)];
      p.report.receipt.status == Committed && p.report.receipt.reason != StructuredLog ==>
        p.state.hasCommitted && exists k :: CommitSeen(setup, all, k)
  {
    hide Poll;
    hide CommitSeen;
    RunKeeps(Fresh(setup), steps);
    StepKeeps(Run(Fresh(setup), steps), PollStep(env));
    var all := steps + [PollStep(env)];
    assert all[..|steps|] == steps;
    RunLast(Fresh(setup), all);
    CommittedIff(setup, all);
  }
}
