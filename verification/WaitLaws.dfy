/** How long a wait can last, and what its result means. */
module WaitLaws {
  import opened Options
  import opened Clock
  import opened WaitLoop

  predicate Usable(s: Settings) {
    s.second > 0 && s.interval > 0
  }

  // ----- sleeping -----

  /** A pause never reaches past the nearer deadline, and is empty only when that has come. */
  lemma PauseFits(s: Settings, elapsed: int, remaining: int)
    requires Usable(s)
    ensures var pause := Pause(s, elapsed, remaining);
      && 0 <= pause && (remaining > 0 ==> pause <= remaining)
      && (pause == 0 <==> remaining <= 0)
  {
  }

  /** Unless the clock itself skips over it, no wait is ever asleep past the nearer deadline. */
  lemma {:induction false} NeverOversleeps(s: Settings, started: int, looks: seq<Look>)
    requires Usable(s) && Waited(s, started, looks).Waiting? && started <= NextDeadline(s, started)
    requires forall i :: 0 <= i < |looks| ==> looks[i].toLease == looks[i].toDeadline == looks[i].toPause == 0
    ensures Waited(s, started, looks).now <= NextDeadline(s, started)
  {
    hide Decide;
    hide Pause;
    hide NextDeadline;
    if looks != [] {
      var n := |looks| - 1;
      NeverOversleeps(s, started, looks[..n]);
      var now := Waited(s, started, looks[..n]).now;
      PauseFits(s, now - started, NextDeadline(s, started) - now);
    }
  }

  /** How long a pause is: the interval, but a second during the first ninety, and never past the deadline. */
  lemma PauseIs(s: Settings, elapsed: int, remaining: int)
    requires Usable(s) && remaining > 0
    ensures var wished := if s.interval > s.second && elapsed < 90 * s.second then s.second else s.interval;
      Pause(s, elapsed, remaining) == if wished < remaining then wished else remaining
  {
  }

  // ----- polls until the deadline -----

  /** The most polls that fit between `now` and the nearer deadline: one a second during the first ninety seconds,
      then one an interval (one an interval throughout if that is a second or less). */
  function PollsLeft(s: Settings, started: int, now: int): nat
    requires Usable(s)
  {
    var next := NextDeadline(s, started);
    var slow := started + 90 * s.second;
    if s.interval <= s.second then Waits(next - now, s.interval)
    else Waits(Min(slow, next) - now, s.second) + Waits(next - (if now >= slow then now else slow), s.interval)
  }

  lemma FewerLater(s: Settings, started: int, now: int, later: int)
    requires Usable(s) && now <= later
    ensures PollsLeft(s, started, later) <= PollsLeft(s, started, now)
  {
    hide Waits;
    var next := NextDeadline(s, started);
    var slow := started + 90 * s.second;
    if s.interval <= s.second {
      WaitsGrow(next - later, next - now, s.interval);
    } else {
      WaitsGrow(Min(slow, next) - later, Min(slow, next) - now, s.second);
      var a := if later >= slow then later else slow;
      var b := if now >= slow then now else slow;
      WaitsGrow(next - a, next - b, s.interval);
    }
  }

  lemma NoneLeft(s: Settings, started: int, now: int)
    requires Usable(s) && now >= NextDeadline(s, started)
    ensures PollsLeft(s, started, now) == 0
  {
  }

  lemma SomeLeft(s: Settings, started: int, now: int)
    requires Usable(s) && now < NextDeadline(s, started)
    ensures PollsLeft(s, started, now) > 0
  {
  }

  /** Every pause before the deadline uses up a poll. */
  lemma PauseCosts(s: Settings, started: int, now: int)
    requires Usable(s) && now < NextDeadline(s, started)
    ensures PollsLeft(s, started, now + PauseAt(s, started, now)) < PollsLeft(s, started, now)
  {
    hide Waits;
    var next := NextDeadline(s, started);
    var pause := PauseAt(s, started, now);
    if pause == next - now {
      NoneLeft(s, started, now + pause);
      SomeLeft(s, started, now);
    } else if s.interval <= s.second {
      WaitsStep(next - now, next - now, s.interval);
    } else if now < started + 90 * s.second {
      FastPause(s, started, now);
    } else {
      SlowPause(s, started, now);
    }
  }

  lemma FastPause(s: Settings, started: int, now: int)
    requires Usable(s) && s.interval > s.second && now + s.second < NextDeadline(s, started)
    requires now < started + 90 * s.second
    ensures PollsLeft(s, started, now + s.second) < PollsLeft(s, started, now)
  {
    hide Waits;
    hide NextDeadline;
    var next := NextDeadline(s, started);
    var slow := started + 90 * s.second;
    var fast := Min(slow, next) - now;
    WaitsStep(fast, fast, s.second);
    var a := if now + s.second >= slow then now + s.second else slow;
    WaitsGrow(next - a, next - slow, s.interval);
  }

  lemma SlowPause(s: Settings, started: int, now: int)
    requires Usable(s) && s.interval > s.second && now + s.interval < NextDeadline(s, started)
    requires now >= started + 90 * s.second
    ensures PollsLeft(s, started, now + s.interval) < PollsLeft(s, started, now)
  {
    hide Waits;
    hide NextDeadline;
    var next := NextDeadline(s, started);
    var slow := started + 90 * s.second;
    WaitsStep(next - now, next - now, s.interval);
    WaitsGrow(Min(slow, next) - now - s.interval, Min(slow, next) - now, s.second);
  }

  /** The task lets go of the controller: it runs in the background and was seen running. */
  predicate Detaches(s: Settings, look: Look) {
    s.backgroundOk && Seen(look) == Some("acked")
  }

  /** There is no controller lease that ends before the timeout. */
  predicate NoEarlyLease(s: Settings) {
    s.lease.None? || s.lease.value < 0 || s.lease.value >= s.timeout
  }

  /** Whenever the loop turns after the lease has ended, the task detaches. */
  predicate LeaseHonoured(s: Settings, started: int, looks: seq<Look>) {
    forall n :: 0 <= n < |looks| ==>
      var before := Waited(s, started, looks[..n]);
      before.Waiting? && MomentsOf(before.now, looks[n]).lease >= NextDeadline(s, started) ==>
        NoEarlyLease(s) || Detaches(s, looks[n])
  }

  /** A turn that goes on although a deadline had come before it looked: the lease has ended, the timeout has not, and the
      task does not detach. */
  lemma LateTurn(s: Settings, started: int, t: Moments, look: Look)
    requires t.lease <= t.deadline && Decide(s, started, t, look) == None && t.lease >= NextDeadline(s, started)
    ensures s.lease.Some? && 0 <= s.lease.value && started + s.lease.value <= t.lease && t.deadline < started + s.timeout
    ensures !NoEarlyLease(s) && !Detaches(s, look)
  {
  }

  /** A turn whose clock readings agree goes on without sleeping exactly when the lease has ended; then the timeout has
      not come, and the task does not detach. */
  lemma SpinIff(s: Settings, started: int, now: int, look: Look)
    requires Usable(s) && Decide(s, started, Moments(now, now, now), look) == None
    ensures PauseAt(s, started, now) == 0 <==> s.lease.Some? && 0 <= s.lease.value && started + s.lease.value <= now
    ensures PauseAt(s, started, now) == 0 ==> now < started + s.timeout && !Detaches(s, look)
  {
    hide Pause;
    PauseFits(s, now - started, NextDeadline(s, started) - now);
  }

  lemma {:induction false} EveryTurnCounts(s: Settings, started: int, looks: seq<Look>)
    requires Usable(s) && LeaseHonoured(s, started, looks) && Waited(s, started, looks).Waiting?
    ensures var w := Waited(s, started, looks);
      w.polls == |looks| && |looks| + PollsLeft(s, started, w.now) <= PollsLeft(s, started, started)
  {
    hide PollsLeft;
    hide Pause;
    hide Decide;
    hide NextDeadline;
    hide Detaches;
    hide NoEarlyLease;
    if looks != [] {
      var n := |looks| - 1;
      HonouredBefore(s, started, looks, n);
      EveryTurnCounts(s, started, looks[..n]);
      TurnCosts(s, started, Waited(s, started, looks[..n]).now, looks[n]);
    }
  }

  /** A turn that goes on uses up a poll. */
  lemma TurnCosts(s: Settings, started: int, before: int, look: Look)
    requires Usable(s) && Decide(s, started, MomentsOf(before, look), look) == None
    requires MomentsOf(before, look).lease >= NextDeadline(s, started) ==> NoEarlyLease(s) || Detaches(s, look)
    ensures var t := MomentsOf(before, look);
      PollsLeft(s, started, t.pause + PauseAt(s, started, t.pause)) < PollsLeft(s, started, before)
  {
    hide PollsLeft;
    hide Pause;
    hide Decide;
    hide NextDeadline;
    hide Detaches;
    hide NoEarlyLease;
    var t := MomentsOf(before, look);
    if t.lease >= NextDeadline(s, started) {
      LateTurn(s, started, t, look);
      assert false;
    } else {
      FewerLater(s, started, before, t.pause);
      SomeLeft(s, started, before);
      if t.pause >= NextDeadline(s, started) {
        PauseFits(s, t.pause - started, NextDeadline(s, started) - t.pause);
        NoneLeft(s, started, t.pause);
      } else {
        PauseCosts(s, started, t.pause);
      }
    }
  }

  lemma HonouredBefore(s: Settings, started: int, looks: seq<Look>, n: nat)
    requires n <= |looks| && LeaseHonoured(s, started, looks)
    ensures LeaseHonoured(s, started, looks[..n])
  {
    hide Waited;
    forall k | 0 <= k < n ensures looks[..n][..k] == looks[..k] {
    }
  }

  /** With no early lease, or a task that runs detachably whenever the loop turns after the lease's end, the wait is
      over after a number of polls known in advance. */
  lemma WaitEnds(s: Settings, started: int, looks: seq<Look>)
    requires Usable(s) && LeaseHonoured(s, started, looks)
    requires |looks| > PollsLeft(s, started, started)
    ensures !Waited(s, started, looks).Waiting?
  {
    hide *;
    if Waited(s, started, looks).Waiting? {
      EveryTurnCounts(s, started, looks);
    }
  }

  /** That number: the timeout or the lease, whichever is shorter, cut into seconds for ninety seconds and into
      intervals after. */
  lemma PollsAtMost(s: Settings, started: int)
    requires Usable(s)
    ensures var time := NextDeadline(s, started) - started;
      PollsLeft(s, started, started) ==
        if s.interval <= s.second then Waits(time, s.interval)
        else Waits(Min(90 * s.second, time), s.second) + Waits(time - 90 * s.second, s.interval)
  {
    hide Waits;
    hide NextDeadline;
    var next := NextDeadline(s, started);
    assert Min(started + 90 * s.second, next) - started == Min(90 * s.second, next - started);
    assert next - (started + 90 * s.second) == (next - started) - 90 * s.second;
  }

  // ----- without that, the loop can spin -----

  const RUNNING: Look := Look(0, 0, 0, Some("acked"), false, None, false, false)

  function Spin(s: Settings, n: nat): seq<Look>
    requires s.lease.Some? && s.lease.value >= 0
  {
    if n == 0 then [RUNNING.(toLease := s.lease.value)] else Spin(s, n - 1) + [RUNNING]
  }

  lemma StandsStill(s: Settings, started: int, before: int, polls: nat, look: Look)
    requires s.lease.Some? && 0 <= s.lease.value < s.timeout && !s.backgroundOk && "acked" !in s.terminal
    requires look == RUNNING.(toLease := look.toLease) && before + look.toLease == started + s.lease.value
    ensures Turn(s, started, before, polls, look) == Waiting(started + s.lease.value, polls + 1)
  {
  }

  /** A lease shorter than the timeout on a task that may not go on in the background: after the lease's end the loop
      turns any number of times with the clock standing still. */
  lemma {:induction false} SpinsWithoutEnd(s: Settings, started: int, n: nat)
    requires Usable(s) && s.lease.Some? && 0 <= s.lease.value < s.timeout && !s.backgroundOk && "acked" !in s.terminal
    ensures Waited(s, started, Spin(s, n)) == Waiting(started + s.lease.value, n + 1)
  {
    hide Turn;
    var looks := Spin(s, n);
    if n == 0 {
      assert looks[..0] == [];
      StandsStill(s, started, started, 0, looks[0]);
    } else {
      SpinsWithoutEnd(s, started, n - 1);
      assert looks[..|looks| - 1] == Spin(s, n - 1);
      StandsStill(s, started, started + s.lease.value, n, looks[|looks| - 1]);
    }
  }

  // ----- what the result means -----

  /** The phase a look shows: the executor's when a session was polled, else the stored one. */
  function Shown(look: Look): string {
    if look.phase == None then "unknown"
    else if look.phase != Some("acked") || !look.hasSession then look.phase.value
    else if look.polledPhase == None then "unknown"
    else look.polledPhase.value
  }

  /** The phase waited for that a look shows, in the table or by polling the executor. */
  function ReachedPhase(s: Settings, look: Look): Option<string> {
    if look.phase == None then None
    else if look.phase.value in s.terminal then look.phase
    else if Shown(look) in s.terminal then Some(Shown(look))
    else None
  }

  predicate ShowsSuccess(s: Settings, look: Look) {
    var phase := ReachedPhase(s, look);
    phase == Some("ready_for_review") || phase == Some("evidence_ready") || phase == Some("committed")
  }

  predicate LeaseEnded(s: Settings, started: int, t: Moments) {
    s.lease.Some? && 0 <= s.lease.value && t.lease >= started + s.lease.value
  }

  /** A background task still running whose lease has ended, or that is silent and may be. */
  predicate MayDetach(s: Settings, started: int, t: Moments, look: Look) {
    && s.backgroundOk && look.phase != None && Shown(look) == "acked" && ReachedPhase(s, look) == None
    && if look.silent then !s.strictWatchdog else LeaseEnded(s, started, t)
  }

  /** What the result of a wait says of its last look: the phase, whether the time ran out, and whether the task was
      found silent. */
  lemma LookReports(s: Settings, started: int, t: Moments, look: Look)
    requires Decide(s, started, t, look).Some?
    ensures var r, reached := Decide(s, started, t, look).value, ReachedPhase(s, look);
      && r.phase == (if reached != None then reached.value else Shown(look))
      && (r.watchdogTriggered <==> look.phase != None && reached == None && Shown(look) == "acked" && look.silent)
      && (r.timedOut <==>
            && look.phase != None && reached == None && !(Shown(look) == "acked" && look.silent)
            && !(s.backgroundOk && Shown(look) == "acked" && LeaseEnded(s, started, t)) && t.deadline >= started + s.timeout)
  {
  }

  lemma LookSucceeds(s: Settings, started: int, t: Moments, look: Look)
    requires Decide(s, started, t, look).Some?
    ensures ExitCodeForDispatch(Decide(s, started, t, look).value) ==
      if ShowsSuccess(s, look) || MayDetach(s, started, t, look) then 0 else 1
  {
  }

  lemma LookApproves(s: Settings, started: int, t: Moments, look: Look)
    requires s.terminal == APPROVAL && Decide(s, started, t, look).Some?
    ensures ExitCodeForApprove(Decide(s, started, t, look).value) == if ReachedPhase(s, look) == Some("committed") then 0 else 1
  {
  }

  /** While a wait goes on, no look has shown a phase waited for. */
  lemma {:induction false} NothingReached(s: Settings, started: int, looks: seq<Look>)
    requires Waited(s, started, looks).Waiting?
    ensures forall j :: 0 <= j < |looks| ==> ReachedPhase(s, looks[j]) == None
  {
    if looks != [] {
      var n := |looks| - 1;
      NothingReached(s, started, looks[..n]);
      assert forall j :: 0 <= j < n ==> looks[..n][j] == looks[j];
      WaitingShowsNone(s, started, Waited(s, started, looks[..n]), looks[n]);
    }
  }

  lemma WaitingShowsNone(s: Settings, started: int, before: Progress, look: Look)
    requires before.Waiting? && Turn(s, started, before.now, before.polls, look).Waiting?
    ensures ReachedPhase(s, look) == None
  {
  }

  /** The wait returned with its last look. */
  predicate EndsHere(s: Settings, started: int, looks: seq<Look>) {
    looks != [] && Waited(s, started, looks[..|looks| - 1]).Waiting? && Waited(s, started, looks).Returned?
  }

  lemma LastTurn(s: Settings, started: int, looks: seq<Look>)
    requires EndsHere(s, started, looks)
    ensures var n := |looks| - 1;
      var t := MomentsOf(Waited(s, started, looks[..n]).now, looks[n]);
      Decide(s, started, t, looks[n]) == Some(Waited(s, started, looks).result)
  {
    hide Decide;
  }

  /** A whole wait reports success exactly when some look of it showed a success phase it was told to wait for, or its
      last look a running background task whose lease had ended or with which it was told to be patient. */
  lemma SuccessMeans(s: Settings, started: int, looks: seq<Look>)
    requires EndsHere(s, started, looks)
    ensures var n := |looks| - 1;
      var t := MomentsOf(Waited(s, started, looks[..n]).now, looks[n]);
      ExitCodeForDispatch(Waited(s, started, looks).result) ==
        if (exists j :: 0 <= j < |looks| && ShowsSuccess(s, looks[j])) || MayDetach(s, started, t, looks[n]) then 0 else 1
  {
    hide Waited;
    hide Decide;
    hide ReachedPhase;
    hide ExitCodeForDispatch;
    hide MayDetach;
    var n := |looks| - 1;
    LastTurn(s, started, looks);
    NothingReached(s, started, looks[..n]);
    assert forall j :: 0 <= j < n ==> looks[..n][j] == looks[j];
    LookSucceeds(s, started, MomentsOf(Waited(s, started, looks[..n]).now, looks[n]), looks[n]);
  }

  /** What a whole wait reports: the phase it ended on, whether its time ran out, whether the task was found silent. */
  lemma WaitReports(s: Settings, started: int, looks: seq<Look>)
    requires EndsHere(s, started, looks)
    ensures var n := |looks| - 1;
      var t := MomentsOf(Waited(s, started, looks[..n]).now, looks[n]);
      var r, look, reached := Waited(s, started, looks).result, looks[n], ReachedPhase(s, looks[n]);
      && r.phase == (if reached != None then reached.value else Shown(look))
      && (r.watchdogTriggered <==> look.phase != None && reached == None && Shown(look) == "acked" && look.silent)
      && (r.timedOut <==>
            && look.phase != None && reached == None && !(Shown(look) == "acked" && look.silent)
            && !(s.backgroundOk && Shown(look) == "acked" && LeaseEnded(s, started, t)) && t.deadline >= started + s.timeout)
  {
    hide Waited;
    hide Decide;
    hide ReachedPhase;
    hide Shown;
    hide LeaseEnded;
    var n := |looks| - 1;
    LastTurn(s, started, looks);
    LookReports(s, started, MomentsOf(Waited(s, started, looks[..n]).now, looks[n]), looks[n]);
  }

  const APPROVAL: set<string> := {"committed", "blocked", "stuck", "abandoned"}

  /** A wait for an approval reports it exactly when some look of it saw the task committed; so no commit that it saw
      is ever taken for a failure. */
  lemma ApprovalMeans(s: Settings, started: int, looks: seq<Look>)
    requires s.terminal == APPROVAL && EndsHere(s, started, looks)
    ensures ExitCodeForApprove(Waited(s, started, looks).result) ==
      if exists j :: 0 <= j < |looks| && ReachedPhase(s, looks[j]) == Some("committed") then 0 else 1
  {
    hide Waited;
    hide Decide;
    hide ReachedPhase;
    hide ExitCodeForApprove;
    hide APPROVAL;
    var n := |looks| - 1;
    LastTurn(s, started, looks);
    NothingReached(s, started, looks[..n]);
    assert forall j :: 0 <= j < n ==> looks[..n][j] == looks[j];
    LookApproves(s, started, MomentsOf(Waited(s, started, looks[..n]).now, looks[n]), looks[n]);
  }
}
