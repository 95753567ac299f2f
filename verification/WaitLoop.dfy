/** Waiting for a task to reach a terminal phase, by polling its stored state. Times are in ticks of any length;
    `second` says how many make a second. */
module WaitLoop {
  import opened Options

  datatype Outcome = TerminalSuccess | TerminalFailure | MissingTask | SoftNoProgress | LeaseExpired | StrictTimeout

  datatype Result = Result(phase: string, outcome: Outcome, timedOut: bool, watchdogTriggered: bool)

  /** `lease` is the controller's waiting time; a negative one counts as none. */
  datatype Settings = Settings(
    second: nat, interval: int, timeout: int, lease: Option<int>, backgroundOk: bool, strictWatchdog: bool,
    terminal: set<string>)

  /** What one turn of the loop finds: time lost before each of its three readings of the clock, the task's phase (if
      the task exists), whether it has a session to poll and its phase after polling it, whether it shows no sign of
      life, and whether the turn ends in an exception. */
  datatype Look = Look(
    toLease: nat, toDeadline: nat, toPause: nat, phase: Option<string>, hasSession: bool, polledPhase: Option<string>, silent: bool, breaks: bool)

  const SUCCESS: set<string> := {"ready_for_review", "evidence_ready", "committed"}
  const FAST_WINDOW: nat := 90

  function Min(a: int, b: int): int {
    if a <= b then a else b
  }

  /** `_adaptive_poll_interval_seconds` for a positive interval. */
  function Pause(s: Settings, elapsed: int, remaining: int): int {
    if remaining <= 0 then 0
    else if s.interval <= s.second then Min(s.interval, remaining)
    else if elapsed < FAST_WINDOW * s.second then Min(s.second, remaining)
    else Min(s.interval, remaining)
  }

  function LeaseDeadline(s: Settings, started: int): Option<int> {
    if s.lease.Some? && s.lease.value >= 0 then Some(started + s.lease.value) else None
  }

  /** The nearer of the two deadlines. */
  function NextDeadline(s: Settings, started: int): int {
    var lease := LeaseDeadline(s, started);
    if lease.Some? then Min(started + s.timeout, lease.value) else started + s.timeout
  }

  function Phase(phase: Option<string>): string {
    if phase.Some? then phase.value else "unknown"
  }

  /** The phase the turn decides on: the polled one if a session was polled. */
  function Seen(look: Look): Option<string> {
    if look.phase == Some("acked") && look.hasSession then look.polledPhase else look.phase
  }

  function Reached(phase: string): Result {
    Result(phase, if phase in SUCCESS then TerminalSuccess else TerminalFailure, false, false)
  }

  /** The clock where a turn compares it with the lease, where it compares it with the deadline, and where it works out
      the pause. */
  datatype Moments = Moments(lease: int, deadline: int, pause: int)

  function MomentsOf(before: int, look: Look): Moments {
    var lease := before + look.toLease;
    Moments(lease, lease + look.toDeadline, lease + look.toDeadline + look.toPause)
  }

  /** Whether the turn ends the wait. */
  function Decide(s: Settings, started: int, t: Moments, look: Look): Option<Result> {
    var phase := Phase(Seen(look));
    var lease := LeaseDeadline(s, started);
    if look.phase.None? then Some(Result("unknown", MissingTask, false, false))
    else if look.phase.value in s.terminal then Some(Reached(look.phase.value))
    else if look.phase == Some("acked") && look.hasSession && phase in s.terminal then Some(Reached(phase))
    else if Seen(look) == Some("acked") && look.silent then
      Some(if s.backgroundOk && !s.strictWatchdog then Result(phase, SoftNoProgress, false, true)
           else Result(phase, TerminalFailure, false, true))
    else if s.backgroundOk && lease.Some? && phase == "acked" && t.lease >= lease.value then
      Some(Result(phase, LeaseExpired, false, false))
    else if t.deadline >= started + s.timeout then Some(Result(phase, StrictTimeout, true, false))
    else None
  }

  /** How long a turn that goes on sleeps. */
  function PauseAt(s: Settings, started: int, now: int): int {
    Pause(s, now - started, NextDeadline(s, started) - now)
  }

  /** How a wait stands after some turns. */
  datatype Progress = Waiting(now: int, polls: nat) | Returned(result: Result) | Raised

  function Turn(s: Settings, started: int, before: int, polls: nat, look: Look): Progress {
    var t := MomentsOf(before, look);
    if look.breaks then Raised
    else
      var decision := Decide(s, started, t, look);
      if decision.Some? then Returned(decision.value)
      else Waiting(t.pause + PauseAt(s, started, t.pause), polls + 1)
  }

  function Waited(s: Settings, started: int, looks: seq<Look>): Progress {
    if looks == [] then Waiting(started, 0)
    else
      var n := |looks| - 1;
      match Waited(s, started, looks[..n])
      case Waiting(before, polls) => Turn(s, started, before, polls, looks[n])
      case over => over
  }

  lemma OneTurnMore(s: Settings, started: int, looks: seq<Look>, n: nat)
    requires n < |looks| && Waited(s, started, looks[..n]).Waiting?
    ensures var before := Waited(s, started, looks[..n]);
      Waited(s, started, looks[..n + 1]) == Turn(s, started, before.now, before.polls, looks[n])
  {
    hide Turn;
    assert looks[..n + 1][..n] == looks[..n];
  }

  // ----- the loop -----

  /** A stored wait; `closings` counts how often it was closed. */
  datatype Waiter = Waiter(task: string, active: bool, polls: nat, closings: nat)

  predicate Awaits(rows: seq<Waiter>, task: string) {
    exists i :: 0 <= i < |rows| && rows[i].task == task && rows[i].active
  }

  /** The table of waits: at most one active wait for a task. */
  class WaiterRepository {
    var rows: seq<Waiter>

    constructor ()
      ensures rows == []
    {
      rows := [];
    }

    /** No two active waits are for the same task. */
    predicate OneActive()
      reads this
    {
      forall i, j :: 0 <= i < j < |rows| && rows[i].active && rows[j].active ==> rows[i].task != rows[j].task
    }

    /** Registers a wait unless another one for the same task is active. */
    method StartWaiter(task: string) returns (id: Option<nat>)
      modifies this
      ensures if Awaits(old(rows), task) then id == None && rows == old(rows)
              else id == Some(|old(rows)|) && rows == old(rows) + [Waiter(task, true, 0, 0)]
      ensures old(OneActive()) ==> OneActive()
      ensures exists i :: 0 <= i < |rows| && rows[i].task == task && rows[i].active
    {
      for i := 0 to |rows|
        invariant rows == old(rows)
        invariant forall j :: 0 <= j < i ==> !(rows[j].task == task && rows[j].active)
      {
        if rows[i].task == task && rows[i].active {
          return None;
        }
      }
      id := Some(|rows|);
      rows := rows + [Waiter(task, true, 0, 0)];
      assert rows[|rows| - 1].active;
    }

    method UpdatePoll(id: nat)
      requires id < |rows|
      modifies this
      ensures rows == old(rows)[id := old(rows)[id].(polls := old(rows)[id].polls + 1)]
    {
      rows := rows[id := rows[id].(polls := rows[id].polls + 1)];
    }

    method Finalize(id: nat)
      requires id < |rows|
      modifies this
      ensures rows == old(rows)[id := old(rows)[id].(active := false, closings := old(rows)[id].closings + 1)]
    {
      rows := rows[id := rows[id].(active := false, closings := rows[id].closings + 1)];
    }
  }

  /** The table while the wait goes on: its own row, if it has one, is open; the other rows are as before. */
  predicate Open(rows: seq<Waiter>, before: seq<Waiter>, task: string, id: Option<nat>, polls: nat) {
    if id.None? then rows == before
    else id.value == |before| && rows == before + [Waiter(task, true, polls, 0)]
  }

  /** The table after the wait: its own row, if it has one, was closed exactly once; the other rows are as before. */
  predicate Closed(rows: seq<Waiter>, before: seq<Waiter>, task: string, id: Option<nat>) {
    if id.None? then rows == before
    else
      && |rows| == |before| + 1 && rows[..|before|] == before
      && var own := rows[|before|];
         own.task == task && !own.active && own.closings == 1
  }

  method CloseOwn(waiters: WaiterRepository, ghost before: seq<Waiter>, task: string, id: Option<nat>, ghost polls: nat)
    requires Open(waiters.rows, before, task, id, polls)
    modifies waiters
    ensures Closed(waiters.rows, before, task, id)
  {
    if id.Some? {
      waiters.Finalize(id.value);
    }
  }

  method NotePoll(waiters: WaiterRepository, ghost before: seq<Waiter>, task: string, id: Option<nat>, ghost polls: nat)
    requires Open(waiters.rows, before, task, id, polls)
    modifies waiters
    ensures Open(waiters.rows, before, task, id, polls + 1)
  {
    if id.Some? {
      waiters.UpdatePoll(id.value);
    }
  }

  /** `ValueError` is raised before anything is registered. If another wait for the task is active, this one polls all
      the same but has no row. `looks` is as far as the world is known; the wait may still be going on after it. */
  method WaitForTerminalPhase(s: Settings, started: int, looks: seq<Look>, waiters: WaiterRepository, task: string)
    returns (valueError: bool, progress: Progress)
    modifies waiters
    ensures valueError <==> s.interval <= 0
    ensures valueError ==> waiters.rows == old(waiters.rows)
    ensures !valueError ==> progress == Waited(s, started, looks)
    ensures !valueError ==>
      var id := if Awaits(old(waiters.rows), task) then None else Some(|old(waiters.rows)|);
      if progress.Waiting? then Open(waiters.rows, old(waiters.rows), task, id, progress.polls)
      else Closed(waiters.rows, old(waiters.rows), task, id)
  {
    valueError, progress := s.interval <= 0, Raised;
    if valueError {
      return;
    }
    ghost var before := waiters.rows;
    var id := waiters.StartWaiter(task);
    hide *;
    var now, turns := started, 0;
    NothingSeen(s, started, looks);
    Registered(waiters.rows, before, task, id);
    for n := 0 to |looks|
      invariant Waited(s, started, looks[..n]) == Waiting(now, turns)
      invariant Open(waiters.rows, before, task, id, turns)
    {
      OneTurnMore(s, started, looks, n);
      TurnIs(s, started, now, turns, looks[n]);
      if looks[n].breaks {
        CloseOwn(waiters, before, task, id, turns);
        StaysOver(s, started, looks, n + 1);
        return false, Raised;
      }
      var t := MomentsOf(now, looks[n]);
      var decision := Decide(s, started, t, looks[n]);
      if decision.Some? {
        CloseOwn(waiters, before, task, id, turns);
        StaysOver(s, started, looks, n + 1);
        return false, Returned(decision.value);
      }
      NotePoll(waiters, before, task, id, turns);
      turns := turns + 1;
      var pause := PauseAt(s, started, t.pause);
      now := t.pause + pause;
    }
    assert looks[..|looks|] == looks;
    progress := Waiting(now, turns);
  }

  lemma Registered(rows: seq<Waiter>, before: seq<Waiter>, task: string, id: Option<nat>)
    requires if id.None? then rows == before else id.value == |before| && rows == before + [Waiter(task, true, 0, 0)]
    ensures Open(rows, before, task, id, 0)
  {
  }

  lemma NothingSeen(s: Settings, started: int, looks: seq<Look>)
    ensures Waited(s, started, looks[..0]) == Waiting(started, 0)
  {
  }

  lemma TurnIs(s: Settings, started: int, before: int, polls: nat, look: Look)
    ensures var t := MomentsOf(before, look);
      Turn(s, started, before, polls, look) ==
        if look.breaks then Raised
        else if Decide(s, started, t, look).Some? then Returned(Decide(s, started, t, look).value)
        else Waiting(t.pause + PauseAt(s, started, t.pause), polls + 1)
  {
  }

  /** A wait that is over stays over. */
  lemma {:induction false} StaysOver(s: Settings, started: int, looks: seq<Look>, n: nat)
    requires n <= |looks| && !Waited(s, started, looks[..n]).Waiting?
    ensures Waited(s, started, looks) == Waited(s, started, looks[..n])
    decreases |looks| - n
  {
    if n == |looks| {
      assert looks[..n] == looks;
    } else {
      assert looks[..n + 1][..n] == looks[..n];
      StaysOver(s, started, looks, n + 1);
    }
  }

  // ----- exit codes -----

  function ExitCodeForDispatch(r: Result): int {
    if r.outcome in {LeaseExpired, SoftNoProgress, TerminalSuccess} then 0
    else if r.outcome in {MissingTask, StrictTimeout, TerminalFailure} then 1
    else if r.timedOut || r.watchdogTriggered then 1
    else if r.phase in SUCCESS then 0 else 1
  }

  function ExitCodeForApprove(r: Result): int {
    if r.timedOut || r.watchdogTriggered then 1 else if r.phase == "committed" then 0 else 1
  }
}
