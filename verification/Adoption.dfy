/** Whether a result can be adopted, and what the controller should do with it. */
module Adoption {
  import opened Options
  import opened Json
  import A = Artifacts

  /** The effective completion policy. */
  datatype Policy = ReportPolicy | CommitPolicy | EvidencePolicy | AutoPolicy

  datatype Adoptable = Yes | Partial | No

  datatype Rework = NoRework | Minor | Major | Redone | Unknown

  datatype Action =
    | UseResult | ReviewThenApply | InspectEvidence | WaitBackground | RetrySameExecutor | SwitchExecutor | NativeFallback
    | RepairExecutor | RetryOrSwitchExecutor

  datatype AgentResult = AgentResult(state: A.State, action: Action, hardBlockers: seq<string>, softWarnings: seq<string>)

  datatype Decision = Decision(
    adoptable: Adoptable, blockers: seq<string>, warnings: seq<string>, agent: AgentResult, artifacts: A.ArtifactResult)

  /** The facts about a result that the policies look at. */
  datatype Evidence = Evidence(
    hasReport: bool, hasReceipt: bool, listsFiles: bool, filesPresent: bool, forbidden: bool, undeclared: bool,
    missingDeclared: bool, scopeViolations: bool, hasCommit: bool, hasCode: bool, hasDiff: bool, hasApplyCheck: bool,
    applyPassed: bool, applyReason: Option<string>, hasValidation: bool)

  // ----- the facts -----

  predicate Holds(artifacts: seq<A.Artifact>, kinds: set<A.Kind>) {
    exists k :: 0 <= k < |artifacts| && artifacts[k].kind in kinds && A.Candidate(artifacts[k])
  }

  predicate HoldsAny(artifacts: seq<A.Artifact>, kind: A.Kind) {
    exists k :: 0 <= k < |artifacts| && artifacts[k].kind == kind
  }

  predicate FullList(m: Option<seq<Member>>, key: string) {
    m.Some? && Get(m.value, key).Arr? && Get(m.value, key).items != []
  }

  const REPORTS: set<A.Kind> := {A.Report, A.StdoutSalvage}
  const CODE: set<A.Kind> := {A.Diff, A.PatchOrCommit}

  /** `present` tells whether the changed files were found, if that was looked into. */
  function Facts(i: A.Input, present: Option<bool>): Evidence {
    var p := i.Payload();
    var diff := Get(p, "worktree_diff");
    var artifacts := A.Classify(i).artifacts;
    var listed := A.ListsFiles(Get(p, "changed_files")) || (diff.Obj? && A.ListsFiles(Get(diff.members, "changed_files")));
    var undeclared := FullList(i.scope, "undeclared_changed_files");
    var missing := FullList(i.scope, "missing_declared_files");
    var forbidden := FullList(i.scope, "forbidden_changed_files");
    Evidence(
      Holds(artifacts, REPORTS),
      i.receipt.Some? || i.receiptFile,
      listed,
      if present.Some? then present.value else if i.scope.Some? then listed && !missing else listed,
      forbidden, undeclared, missing,
      FullList(Some(p), "scope_violations") || undeclared || missing || forbidden,
      Holds(artifacts, {A.PatchOrCommit}),
      Holds(artifacts, CODE),
      HoldsAny(artifacts, A.Diff) || i.gitDirty || (diff.Obj? && Truthy(Get(diff.members, "has_patch"))),
      diff.Obj? && A.HasKey(diff.members, "apply_check_ok"),
      diff.Obj? && Truthy(Get(diff.members, "apply_check_ok")),
      if diff.Obj? then A.StringValue(Get(diff.members, "apply_check_reason")) else None,
      Truthy(Get(p, "validation")) || Truthy(Get(p, "validation_not_run")))
  }

  // ----- the controller's action -----

  predicate Harmless(blocker: string) {
    blocker == "no_useful_artifact" || blocker == "thought_only_output"
  }

  function Fatal(blockers: seq<string>): seq<string> {
    if blockers == [] then []
    else
      var n := |blockers| - 1;
      Fatal(blockers[..n]) + (if Harmless(blockers[n]) then [] else [blockers[n]])
  }

  function ControllerAction(r: A.ArtifactResult, policy: Policy): Action {
    if r.state == A.Blocked then if Fatal(r.globalBlockers) != [] then InspectEvidence else RetryOrSwitchExecutor
    else if (policy == CommitPolicy || policy == EvidencePolicy) && Holds(r.artifacts, CODE) then ReviewThenApply
    else if r.primary in REPORTS then UseResult
    else if r.primary in CODE && (policy == CommitPolicy || policy == EvidencePolicy) then ReviewThenApply
    else InspectEvidence
  }

  function AgentResultFrom(
    adoptable: Adoptable, r: A.ArtifactResult, blockers: seq<string>, warnings: seq<string>, rework: Rework, policy: Policy)
    : AgentResult
  {
    var action := ControllerAction(r, policy);
    var hard := A.Unique(r.globalBlockers + blockers);
    var soft := A.Unique(r.softWarnings + warnings);
    if r.state == A.Blocked || adoptable == No then AgentResult(A.Blocked, action, hard, soft)
    else if r.state == A.NeedsReview || adoptable == Partial || rework == Major || rework == Redone then
      AgentResult(A.NeedsReview, action, hard, soft)
    else AgentResult(A.Usable, action, [], soft)
  }

  function MakeDecision(
    adoptable: Adoptable, blockers: seq<string>, warnings: seq<string>, rework: Rework, policy: Policy,
    r: A.ArtifactResult): Decision
  {
    var b, w := A.Unique(blockers), A.Unique(warnings);
    Decision(adoptable, b, w, AgentResultFrom(adoptable, r, b, w, rework, policy), r)
  }

  // ----- the blockers -----

  predicate NamesScope(blockers: seq<string>) {
    "forbidden_changes" in blockers || "undeclared_changes" in blockers || "missing_declared_changes" in blockers
  }

  function AddIf(earlier: seq<string>, here: bool, blocker: string): seq<string> {
    if here then earlier + [blocker] else earlier
  }

  function ScopeBlockers(earlier: seq<string>, e: Evidence): seq<string> {
    var named :=
      AddIf(AddIf(AddIf(earlier, e.forbidden, "forbidden_changes"), e.undeclared, "undeclared_changes"),
            e.missingDeclared, "missing_declared_changes");
    AddIf(named, e.scopeViolations && !NamesScope(named), "scope_violations")
  }

  function HardBlockers(artifacts: seq<A.Artifact>): seq<string> {
    if artifacts == [] then []
    else HardBlockers(artifacts[..|artifacts| - 1]) + artifacts[|artifacts| - 1].hardBlockers
  }

  /** The blockers the receipt itself names. */
  function ReceiptBlockers(i: A.Input): seq<string> {
    var named := A.StringValue(Get(i.Payload(), "blocker_type"));
    var status := if i.receipt.Some? then A.StringValue(Get(i.receipt.value, "status")) else None;
    if named.Some? then [named.value]
    else if i.upper(if status.Some? then status.value else "") == "BLOCKED" then ["blocked_terminal_result"]
    else []
  }

  const LOW_RISK: set<string> :=
    {"schema_version_alias", "status_alias", "mixed_text_json", "wrapped_text_json", "artifact_path_missing"}

  predicate HasBlockingWarning(warnings: seq<string>) {
    exists k :: 0 <= k < |warnings| && warnings[k] !in LOW_RISK
  }

  // ----- the decision, policy by policy -----

  function ReportDecision(r: A.ArtifactResult, e: Evidence, blockers: seq<string>): (Adoptable, seq<string>) {
    if !e.hasReport then (if r.state == A.Blocked then No else Partial, blockers + ["report_missing"])
    else if blockers != [] then (Partial, blockers)
    else (if e.hasReceipt && r.state == A.Usable then Yes else Partial, [])
  }

  function CommitDecision(r: A.ArtifactResult, e: Evidence, earlier: seq<string>, warned: bool): (Adoptable, seq<string>) {
    var blockers := ScopeBlockers(earlier, e);
    if e.hasCommit && r.state == A.Usable then (if blockers != [] || warned then Partial else Yes, blockers)
    else if r.state != A.Blocked then (Partial, blockers + ["commit_missing"])
    else (No, blockers + ["commit_and_diff_missing"])
  }

  function EvidenceBlockers(e: Evidence, earlier: seq<string>): seq<string> {
    var reportOnly := e.hasReport && !e.listsFiles && !e.hasCode && !e.hasCommit && !e.hasDiff;
    var scoped := ScopeBlockers(AddIf(earlier, e.listsFiles && !e.filesPresent, "changed_files_not_present"), e);
    var checked := AddIf(scoped, e.hasApplyCheck && !e.applyPassed,
                         if e.applyReason.Some? then e.applyReason.value else "apply_check_failed");
    AddIf(checked, !e.hasValidation && !reportOnly, "validation_missing")
  }

  function EvidenceDecision(r: A.ArtifactResult, e: Evidence, earlier: seq<string>, warned: bool): (Adoptable, seq<string>) {
    if r.state == A.Blocked || (!e.hasReport && !e.hasCode) then (No, earlier + r.globalBlockers + ["evidence_missing"])
    else
      var blockers := EvidenceBlockers(e, earlier);
      if blockers != [] then (Partial, blockers)
      else (if r.state == A.NeedsReview || warned then Partial else Yes, [])
  }

  function Verdict(i: A.Input, e: Evidence, policy: Policy): (Adoptable, seq<string>) {
    var r := A.Classify(i);
    var fatal := Fatal(r.globalBlockers);
    var blockers := HardBlockers(r.artifacts) + ReceiptBlockers(i);
    var warned := HasBlockingWarning(A.Warnings(i));
    if fatal != [] then (No, fatal)
    else
      match policy
      case ReportPolicy => ReportDecision(r, e, blockers)
      case CommitPolicy => CommitDecision(r, e, blockers, warned)
      case _ => EvidenceDecision(r, e, blockers, warned)
  }

  function Derive(i: A.Input, present: Option<bool>, policy: Policy, rework: Rework): Decision {
    var (adoptable, blockers) := Verdict(i, Facts(i, present), policy);
    MakeDecision(adoptable, blockers, A.Warnings(i), rework, policy, A.Classify(i))
  }

  // ----- the same, growing one list of blockers -----

  method AppendScopeBlockers(earlier: seq<string>, e: Evidence) returns (blockers: seq<string>)
    ensures blockers == ScopeBlockers(earlier, e)
  {
    hide NamesScope;
    blockers := earlier;
    if e.forbidden {
      blockers := blockers + ["forbidden_changes"];
    }
    if e.undeclared {
      blockers := blockers + ["undeclared_changes"];
    }
    if e.missingDeclared {
      blockers := blockers + ["missing_declared_changes"];
    }
    if e.scopeViolations && !NamesScope(blockers) {
      blockers := blockers + ["scope_violations"];
    }
  }

  method CollectBlockers(i: A.Input, artifacts: seq<A.Artifact>) returns (blockers: seq<string>)
    ensures blockers == HardBlockers(artifacts) + ReceiptBlockers(i)
  {
    hide ReceiptBlockers;
    blockers := [];
    for k := 0 to |artifacts|
      invariant blockers == HardBlockers(artifacts[..k])
    {
      assert artifacts[..k + 1][..k] == artifacts[..k];
      blockers := blockers + artifacts[k].hardBlockers;
    }
    assert artifacts[..|artifacts|] == artifacts;
    blockers := blockers + ReceiptBlockers(i);
  }

  method DecideEvidence(r: A.ArtifactResult, e: Evidence, earlier: seq<string>, warned: bool)
    returns (adoptable: Adoptable, blockers: seq<string>)
    ensures (adoptable, blockers) == EvidenceDecision(r, e, earlier, warned)
  {
    hide ScopeBlockers;
    blockers := earlier;
    if r.state == A.Blocked || (!e.hasReport && !e.hasCode) {
      blockers := blockers + r.globalBlockers;
      blockers := blockers + ["evidence_missing"];
      return No, blockers;
    }
    if e.listsFiles && !e.filesPresent {
      blockers := blockers + ["changed_files_not_present"];
    }
    blockers := AppendScopeBlockers(blockers, e);
    if e.hasApplyCheck && !e.applyPassed {
      blockers := blockers + [if e.applyReason.Some? then e.applyReason.value else "apply_check_failed"];
    }
    var reportOnly := e.hasReport && !e.listsFiles && !e.hasCode && !e.hasCommit && !e.hasDiff;
    if !e.hasValidation && !reportOnly {
      blockers := blockers + ["validation_missing"];
    }
    assert blockers == EvidenceBlockers(e, earlier);
    if blockers != [] {
      return Partial, blockers;
    }
    return if r.state == A.NeedsReview || warned then Partial else Yes, [];
  }

  method DecideReport(r: A.ArtifactResult, e: Evidence, earlier: seq<string>)
    returns (adoptable: Adoptable, blockers: seq<string>)
    ensures (adoptable, blockers) == ReportDecision(r, e, earlier)
  {
    blockers := earlier;
    if !e.hasReport {
      blockers := blockers + ["report_missing"];
      if r.state != A.Blocked {
        return Partial, blockers;
      }
      return No, blockers;
    }
    if blockers != [] {
      return Partial, blockers;
    }
    return if e.hasReceipt && r.state == A.Usable then Yes else Partial, [];
  }

  method DecideCommit(r: A.ArtifactResult, e: Evidence, earlier: seq<string>, warned: bool)
    returns (adoptable: Adoptable, blockers: seq<string>)
    ensures (adoptable, blockers) == CommitDecision(r, e, earlier, warned)
  {
    hide ScopeBlockers;
    blockers := AppendScopeBlockers(earlier, e);
    if e.hasCommit && r.state == A.Usable {
      return if blockers != [] || warned then Partial else Yes, blockers;
    }
    if r.state != A.Blocked {
      blockers := blockers + ["commit_missing"];
      return Partial, blockers;
    }
    blockers := blockers + ["commit_and_diff_missing"];
    return No, blockers;
  }

  method DeriveAdoptionDecision(i: A.Input, present: Option<bool>, policy: Policy, rework: Rework)
    returns (d: Decision)
    ensures d == Derive(i, present, policy, rework)
  {
    hide *;
    DeriveIs(i, present, policy, rework);
    var r := A.Classify(i);
    var e := Facts(i, present);
    var warnings := A.Warnings(i);
    var warned := HasBlockingWarning(warnings);
    var adoptable;
    var fatal := Fatal(r.globalBlockers);
    if fatal != [] {
      return MakeDecision(No, fatal, warnings, rework, policy, r);
    }
    var blockers := CollectBlockers(i, r.artifacts);
    match policy {
      case ReportPolicy => adoptable, blockers := DecideReport(r, e, blockers);
      case CommitPolicy => adoptable, blockers := DecideCommit(r, e, blockers, warned);
      case _ => adoptable, blockers := DecideEvidence(r, e, blockers, warned);
    }
    return MakeDecision(adoptable, blockers, warnings, rework, policy, r);
  }

  lemma DeriveIs(i: A.Input, present: Option<bool>, policy: Policy, rework: Rework)
    ensures var r := A.Classify(i);
      var e := Facts(i, present);
      var blockers := HardBlockers(r.artifacts) + ReceiptBlockers(i);
      var warned := HasBlockingWarning(A.Warnings(i));
      Derive(i, present, policy, rework) ==
        (if Fatal(r.globalBlockers) != [] then
           MakeDecision(No, Fatal(r.globalBlockers), A.Warnings(i), rework, policy, r)
         else
           var (a, b) := match policy
             case ReportPolicy => ReportDecision(r, e, blockers)
             case CommitPolicy => CommitDecision(r, e, blockers, warned)
             case _ => EvidenceDecision(r, e, blockers, warned);
           MakeDecision(a, b, A.Warnings(i), rework, policy, r))
  {
    hide Facts;
    hide Fatal;
    hide HardBlockers;
    hide ReceiptBlockers;
    hide HasBlockingWarning;
    hide ReportDecision;
    hide CommitDecision;
    hide EvidenceDecision;
    hide MakeDecision;
  }
}
