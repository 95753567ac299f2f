/** What to do next about a task's result. */
module Recovery {
  import opened Options
  import opened Adoption

  /** The agent result as stored; a field that is missing is `None`, and one with an unknown text is not here. */
  datatype StoredAgent = StoredAgent(state: Option<A.State>, action: Option<Action>, hardBlockers: seq<string>)

  datatype StoredArtifacts = StoredArtifacts(state: A.State, primary: A.Kind)

  /** `requested` is the executor the user asked for by name, `next` the next eligible one. */
  datatype Situation = Situation(
    agent: StoredAgent, artifacts: Option<StoredArtifacts>, requested: Option<string>, next: Option<string>,
    leaseExpired: bool, budgetExhausted: bool)

  datatype Recovered = Recovered(action: Action, nextExecutor: Option<string>)

  predicate Names(executor: Option<string>) {
    executor.Some? && executor.value != ""
  }

  predicate HasAny(blockers: seq<string>, names: set<string>) {
    exists k :: 0 <= k < |blockers| && blockers[k] != "" && blockers[k] in names
  }

  const UNHEALTHY: set<string> := {
    "executor_auth_required", "executor_auth_failed", "executor_probe_failed", "executor_unavailable",
    "executor_quota_exhausted"}
  const UNAUTHORIZED: set<string> := {"approval_required", "authorization_profile_insufficient"}
  const OUT_OF_BOUNDS: set<string> := {"scope_violation", "authorization_violation"}
  const NO_SIGNAL: set<string> := {
    "no_useful_executor_signal", "terminal_receipt_missing", "report_missing", "execution_budget_exhausted",
    "executor_response_timeout", "no_progress_budget_exceeded"}

  predicate Decisive(action: Option<Action>) {
    action == Some(UseResult) || action == Some(ReviewThenApply) || action == Some(NativeFallback)
  }

  /** With no stored action, a safe artifact decides. */
  function FromArtifacts(s: Situation): Option<Action> {
    if s.agent.action.Some? || s.artifacts.None? || s.artifacts.value.state !in {A.Usable, A.NeedsReview} then None
    else if s.artifacts.value.primary in REPORTS then Some(UseResult)
    else if s.artifacts.value.primary in CODE then Some(ReviewThenApply)
    else None
  }

  /** `choose_recovery_decision` */
  function Choose(s: Situation): Recovered {
    var blocked := s.agent.state == Some(A.Blocked);
    if Decisive(s.agent.action) then Recovered(s.agent.action.value, None)
    else if FromArtifacts(s).Some? then Recovered(FromArtifacts(s).value, None)
    else if s.leaseExpired && !s.budgetExhausted then Recovered(WaitBackground, None)
    else if HasAny(s.agent.hardBlockers, UNHEALTHY) then Recovered(RepairExecutor, s.next)
    else if HasAny(s.agent.hardBlockers, UNAUTHORIZED) then Recovered(RetrySameExecutor, s.next)
    else if HasAny(s.agent.hardBlockers, OUT_OF_BOUNDS) then Recovered(InspectEvidence, s.next)
    else if blocked && HasAny(s.agent.hardBlockers, NO_SIGNAL) then
      if Names(s.requested) then Recovered(RetrySameExecutor, s.next)
      else if Names(s.next) then Recovered(SwitchExecutor, s.next)
      else Recovered(NativeFallback, None)
    else if s.agent.action == Some(InspectEvidence) then Recovered(InspectEvidence, s.next)
    else if blocked then Recovered(RetrySameExecutor, s.next)
    else Recovered(InspectEvidence, s.next)
  }
}
